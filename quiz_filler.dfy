/**
 * The quiz engine of one session: a frozen catalog snapshot and the mutable progress
 * (answers given, the current question, the recommended products).
 */
module QuizFillerDomain {
  import opened Wrappers
  import opened Catalog
  import opened Dicts
  import opened Resolver

  /** The catalog as it was read when the session was created. */
  datatype Snapshot = Snapshot(
    questions: seq<Question>,
    products: seq<Product>,
    productRestrictions: seq<Restriction>,
    questionTransitions: seq<Transition>)

  datatype AnswerGiven = AnswerGiven(questionId: int, answerId: int)

  /** The per-session record; no current question means the session is over. */
  datatype Progress = Progress(
    answersGiven: seq<AnswerGiven>,
    currentQuestionId: Option<int>,
    recommendedProducts: seq<Product>)

  /** The snapshot as the engine holds it: questions and products keyed by id, rules as lists. */
  datatype SnapshotIndex = SnapshotIndex(
    questions: map<int, Question>,
    questionOrder: seq<int>,
    products: map<int, Product>,
    productRestrictions: seq<Restriction>,
    questionTransitions: seq<Transition>)

  /** What a valid answer leads to: the new current question (whose lookup may miss), a recommendation, or None. */
  datatype Outcome = NextQuestion(question: Option<Question>) | Recommended(products: seq<Product>) | Finished

  datatype AnswerError = InvalidAnswer(answerId: int, questionId: int) | UnknownProduct(productId: int)

  function QuestionKey(q: Question): int { q.id }

  function ProductKey(p: Product): int { p.id }

  /** Every key of the question order names a question, and each dict maps an id to an entity with that id. */
  ghost predicate WellFormed(ix: SnapshotIndex) {
    && (forall i :: 0 <= i < |ix.questionOrder| ==> ix.questionOrder[i] in ix.questions)
    && (forall k :: k in ix.questions ==> k in ix.questionOrder)
    && (forall k :: k in ix.questions ==> ix.questions[k].id == k)
    && (forall k :: k in ix.products ==> ix.products[k].id == k)
  }

  /** The engine's dicts over a snapshot, as the constructor builds them. */
  function BuildIndex(s: Snapshot): (ix: SnapshotIndex)
    ensures WellFormed(ix)
    ensures forall i :: 0 <= i < |s.questions| ==> s.questions[i].id in ix.questions
    ensures forall i :: 0 <= i < |s.products| ==> s.products[i].id in ix.products
  {
    var order := KeyOrder(s.questions, QuestionKey);
    assert forall i :: 0 <= i < |order| ==> order[i] in order;
    SnapshotIndex(
      IndexBy(s.questions, QuestionKey), order,
      IndexBy(s.products, ProductKey), s.productRestrictions, s.questionTransitions)
  }

  /** The first question in dict order whose status is 'published', or None. */
  function FirstPublished(order: seq<int>, questions: map<int, Question>): (r: Option<int>)
    requires forall i :: 0 <= i < |order| ==> order[i] in questions
    ensures r.None? <==> forall i :: 0 <= i < |order| ==> questions[order[i]].status != PUBLISHED
    ensures r.Some? ==> exists i :: (0 <= i < |order| && order[i] == r.value
      && questions[order[i]].status == PUBLISHED
      && forall j :: 0 <= j < i ==> questions[order[j]].status != PUBLISHED)
  {
    if order == [] then None
    else if questions[order[0]].status == PUBLISHED then Some(order[0])
    else
      var r := FirstPublished(order[1..], questions);
      assert forall i :: 1 <= i < |order| ==> order[1..][i - 1] == order[i];
      r
  }

  /** `progress or {...}`: a stored progress, or a fresh one at the first published question. */
  function LoadedProgress(ix: SnapshotIndex, stored: Option<Progress>): (p: Progress)
    requires WellFormed(ix)
    ensures stored.Some? ==> p == stored.value
    ensures stored.None? ==> (p.answersGiven == [] && p.recommendedProducts == []
      && p.currentQuestionId == FirstPublished(ix.questionOrder, ix.questions))
  {
    if stored.Some? then stored.value else Progress([], FirstPublished(ix.questionOrder, ix.questions), [])
  }

  /** `dict.get`: the question with that id, or None; None when there is no id at all. */
  function LookupQuestion(questions: map<int, Question>, id: Option<int>): (q: Option<Question>)
    ensures q.Some? <==> id.Some? && id.value in questions
    ensures q.Some? ==> q.value == questions[id.value]
  {
    if id.Some? && id.value in questions then Some(questions[id.value]) else None
  }

  /** The answer id is one of the question's answers. */
  predicate HasAnswer(q: Question, answerId: int) {
    exists a :: a in q.answers && a.id == answerId
  }

  /** The answer ids of the history, in order. */
  function AnswerIds(given: seq<AnswerGiven>): (ids: seq<int>)
    ensures |ids| == |given|
    ensures forall i :: 0 <= i < |given| ==> ids[i] == given[i].answerId
  {
    seq(|given|, i requires 0 <= i < |given| => given[i].answerId)
  }

  /** `[products[id] for id in ids]`: fails on the first id that is not a product. */
  function LookupAll(products: map<int, Product>, ids: seq<int>): (r: Result<seq<Product>, int>)
    ensures r.Success? <==> forall i :: 0 <= i < |ids| ==> ids[i] in products
    ensures r.Success? ==> |r.value| == |ids| && forall i :: 0 <= i < |ids| ==> r.value[i] == products[ids[i]]
    ensures r.Failure? ==> exists i :: (0 <= i < |ids| && ids[i] == r.error && ids[i] !in products
      && forall j :: 0 <= j < i ==> ids[j] in products)
  {
    if ids == [] then Success([])
    else if ids[0] !in products then Failure(ids[0])
    else
      var rest := LookupAll(products, ids[1..]);
      assert forall i :: 1 <= i < |ids| ==> ids[1..][i - 1] == ids[i];
      match rest
      case Success(ps) => Success([products[ids[0]]] + ps)
      case Failure(e) => Failure(e)
  }

  /**
   * One answer to `current`: the progress afterwards and what the engine returns or raises.
   * Validation comes first; a valid answer is appended before the outcome is resolved.
   */
  function Step(ix: SnapshotIndex, p: Progress, answerId: int, current: Question): (r: (Progress, Result<Outcome, AnswerError>))
    ensures !HasAnswer(current, answerId) ==> r == (p, Failure(InvalidAnswer(answerId, current.id)))
    ensures HasAnswer(current, answerId) ==>
      r.0.answersGiven == p.answersGiven + [AnswerGiven(current.id, answerId)]
    ensures HasAnswer(current, answerId) ==>
      var rules := ix.questionTransitions;
      var k := FirstNextIndex(rules, answerId);
      k < |rules| ==>
        && r.0.currentQuestionId == rules[k].nextQuestionId
        && r.0.recommendedProducts == p.recommendedProducts
        && r.1 == Success(NextQuestion(LookupQuestion(ix.questions, rules[k].nextQuestionId)))
    ensures HasAnswer(current, answerId) ==>
      var rules := ix.questionTransitions;
      var candidates := CollectProducts(rules, answerId);
      FirstNextIndex(rules, answerId) == |rules| && candidates != [] ==>
        && r.0.currentQuestionId == p.currentQuestionId
        && var allowed := FilterRestricted(candidates, RestrictedBy(ix.productRestrictions, AnswerIds(r.0.answersGiven)));
           match LookupAll(ix.products, allowed)
           case Success(recs) => r.0.recommendedProducts == recs && r.1 == Success(Recommended(recs))
           case Failure(id) => r.0.recommendedProducts == p.recommendedProducts && r.1 == Failure(UnknownProduct(id))
    ensures HasAnswer(current, answerId) ==>
      var rules := ix.questionTransitions;
      FirstNextIndex(rules, answerId) == |rules| && CollectProducts(rules, answerId) == [] ==>
        && r.0.currentQuestionId == None
        && r.0.recommendedProducts == p.recommendedProducts
        && r.1 == Success(Finished)
  {
    if !HasAnswer(current, answerId) then (p, Failure(InvalidAnswer(answerId, current.id)))
    else
      var given := p.(answersGiven := p.answersGiven + [AnswerGiven(current.id, answerId)]);
      var result := Resolve(ix.questionTransitions, answerId);
      if Truthy(result.nextQuestionId) then
        var moved := given.(currentQuestionId := result.nextQuestionId);
        (moved, Success(NextQuestion(LookupQuestion(ix.questions, moved.currentQuestionId))))
      else if result.productIds != [] then
        var restricted := RestrictedBy(ix.productRestrictions, AnswerIds(given.answersGiven));
        match LookupAll(ix.products, FilterRestricted(result.productIds, restricted))
        case Failure(id) => (given, Failure(UnknownProduct(id)))
        case Success(recs) => (given.(recommendedProducts := recs), Success(Recommended(recs)))
      else
        (given.(currentQuestionId := None), Success(Finished))
  }

  /**
   * A recommendation never holds a product that a restriction ties to any answer of the
   * session, this one included; it holds exactly the unrestricted candidates, in order.
   */
  lemma RecommendationAvoidsRestricted(ix: SnapshotIndex, p: Progress, answerId: int, current: Question)
    requires WellFormed(ix)
    requires Step(ix, p, answerId, current).1.Success?
    requires Step(ix, p, answerId, current).1.value.Recommended?
    ensures var (p', r) := Step(ix, p, answerId, current);
      var recs := r.value.products;
      && p'.recommendedProducts == recs
      && (forall i :: 0 <= i < |recs| ==> recs[i].id in CollectProducts(ix.questionTransitions, answerId))
      && (forall i, n ::
            (0 <= i < |recs| && 0 <= n < |ix.productRestrictions|
             && ix.productRestrictions[n].answerId in AnswerIds(p'.answersGiven))
            ==> recs[i].id != ix.productRestrictions[n].productId)
  {
    var rules := ix.questionTransitions;
    var (p', r) := Step(ix, p, answerId, current);
    var candidates := CollectProducts(rules, answerId);
    var restricted := RestrictedBy(ix.productRestrictions, AnswerIds(p'.answersGiven));
    var allowed := FilterRestricted(candidates, restricted);
    assert FirstNextIndex(rules, answerId) == |rules| && candidates != [];
    var recs := r.value.products;
    assert LookupAll(ix.products, allowed) == Success(recs);
    forall i | 0 <= i < |recs|
      ensures recs[i].id in candidates && recs[i].id !in restricted
    {
      assert recs[i].id == allowed[i];
    }
    forall i, n | 0 <= i < |recs| && 0 <= n < |ix.productRestrictions|
        && ix.productRestrictions[n].answerId in AnswerIds(p'.answersGiven)
      ensures recs[i].id != ix.productRestrictions[n].productId
    {
      assert ix.productRestrictions[n] in ix.productRestrictions;
      assert ix.productRestrictions[n].productId in restricted;
    }
  }

  class QuizFiller {
    const quizId: int
    const questions: map<int, Question>
    const questionOrder: seq<int>
    const products: map<int, Product>
    const productRestrictions: seq<Restriction>
    const questionTransitions: seq<Transition>
    var progress: Progress

    /** The frozen snapshot this engine holds. */
    function AsIndex(): SnapshotIndex {
      SnapshotIndex(questions, questionOrder, products, productRestrictions, questionTransitions)
    }

    ghost predicate Valid() {
      WellFormed(AsIndex())
    }

    /** Builds the dicts of the snapshot; a missing progress starts at the first published question. */
    constructor (quizId: int, snapshot: Snapshot, progress: Option<Progress>)
      ensures Valid()
      ensures this.quizId == quizId && AsIndex() == BuildIndex(snapshot)
      ensures this.progress == LoadedProgress(BuildIndex(snapshot), progress)
    {
      this.quizId := quizId;
      questions := IndexBy(snapshot.questions, QuestionKey);
      questionOrder := KeyOrder(snapshot.questions, QuestionKey);
      products := IndexBy(snapshot.products, ProductKey);
      productRestrictions := snapshot.productRestrictions;
      questionTransitions := snapshot.questionTransitions;
      new;
      if progress.Some? {
        this.progress := progress.value;
      } else {
        var first := FirstQuestionId();
        this.progress := Progress([], first, []);
      }
    }

    /** Scans the questions in dict order for the first published one. */
    method FirstQuestionId() returns (first: Option<int>)
      requires Valid()
      ensures first == FirstPublished(questionOrder, questions)
    {
      var i := 0;
      while i < |questionOrder|
        invariant 0 <= i <= |questionOrder|
        invariant FirstPublished(questionOrder[i..], questions) == FirstPublished(questionOrder, questions)
      {
        assert questionOrder[i..][1..] == questionOrder[i + 1..];
        if questions[questionOrder[i]].status == PUBLISHED {
          return Some(questionOrder[i]);
        }
        i := i + 1;
      }
      return None;
    }

    /** The current question, without side effects. */
    function GetCurrentQuestion(): (q: Option<Question>)
      reads this
      requires Valid()
      ensures q.Some? ==> progress.currentQuestionId == Some(q.value.id) && q.value.id in questions && q.value == questions[q.value.id]
      ensures q.None? <==> progress.currentQuestionId.None? || progress.currentQuestionId.value !in questions
    {
      assert forall k :: k in questions ==> questions[k].id == k by {
        assert WellFormed(AsIndex());
      }
      var q := LookupQuestion(questions, progress.currentQuestionId);
      assert q.Some? ==> q.value.id == progress.currentQuestionId.value;
      q
    }

    /** Validates the answer, records it, then moves on, recommends or ends the session. */
    method Answer(answerId: int, currentQuestion: Question) returns (r: Result<Outcome, AnswerError>)
      requires Valid()
      modifies this
      ensures (progress, r) == Step(AsIndex(), old(progress), answerId, currentQuestion)
    {
      if !HasAnswer(currentQuestion, answerId) {
        return Failure(InvalidAnswer(answerId, currentQuestion.id));
      }
      progress := progress.(answersGiven := progress.answersGiven + [AnswerGiven(currentQuestion.id, answerId)]);
      var result := GetTransitionResult(answerId);
      if Truthy(result.nextQuestionId) {
        progress := progress.(currentQuestionId := result.nextQuestionId);
        var next := GetCurrentQuestion();
        return Success(NextQuestion(next));
      } else if result.productIds != [] {
        var answerIds := AnswerIds(progress.answersGiven);
        var restricted := RestrictedProductsForAnswers(answerIds);
        var recommended := LookupAll(products, FilterRestricted(result.productIds, restricted));
        if recommended.Failure? {
          return Failure(UnknownProduct(recommended.error));
        }
        progress := progress.(recommendedProducts := recommended.value);
        return Success(Recommended(recommended.value));
      }
      progress := progress.(currentQuestionId := None);
      return Success(Finished);
    }

    /** The union of the restrictions over the given answers. */
    method RestrictedProductsForAnswers(answerIds: seq<int>) returns (restricted: set<int>)
      ensures restricted == RestrictedBy(productRestrictions, answerIds)
    {
      restricted := {};
      var i := 0;
      while i < |productRestrictions|
        invariant 0 <= i <= |productRestrictions|
        invariant restricted == RestrictedBy(productRestrictions[..i], answerIds)
      {
        var r := productRestrictions[i];
        assert productRestrictions[..i + 1] == productRestrictions[..i] + [r];
        if r.answerId in answerIds {
          restricted := restricted + {r.productId};
        }
        i := i + 1;
      }
      assert productRestrictions[..i] == productRestrictions;
    }

    /** Scans the rules in order: the first next question wins, otherwise every offered product is collected. */
    method GetTransitionResult(answerId: int) returns (r: Resolution)
      ensures r == Resolve(questionTransitions, answerId)
    {
      var rules := questionTransitions;
      var nextQuestionId: Option<int> := None;
      var productIds: seq<int> := [];
      var i := 0;
      while i < |rules|
        invariant 0 <= i <= FirstNextIndex(rules, answerId)
        invariant productIds == CollectProducts(rules[..i], answerId)
        invariant nextQuestionId == None
      {
        var t := rules[i];
        assert rules[..i + 1] == rules[..i] + [t];
        CollectProductsAppend(rules[..i], [t], answerId);
        assert [t][1..] == [];
        if t.answerId == answerId {
          if Truthy(t.nextQuestionId) {
            nextQuestionId := t.nextQuestionId;
            break;
          } else if Truthy(t.productId) {
            productIds := productIds + [t.productId.value];
          }
        }
        i := i + 1;
      }
      assert i == |rules| ==> rules[..i] == rules;
      return Resolution(nextQuestionId, productIds);
    }
  }
}
