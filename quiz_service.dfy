/**
 * Session orchestration: loading or creating a session from the quiz collection, the
 * guards the engine relies on (no current question, question already answered), answering,
 * the idempotent re-fetch of a recommendation, and rewinding to an answered question.
 */
module QuizService {
  import opened Wrappers
  import opened Catalog
  import opened Dicts
  import opened Resolver
  import opened QuizFillerDomain

  /** One document of the quiz collection. A missing or empty progress is `None`. */
  datatype StoredQuiz = StoredQuiz(snapshot: Snapshot, progress: Option<Progress>)

  /** The shapes the service returns. */
  datatype View =
    | CurrentQuestionView(currentQuestion: Option<Question>, answersGiven: seq<AnswerGiven>)
    | RecommendationView(recommendedProducts: seq<Product>, answersGiven: seq<AnswerGiven>)
    | NextQuestionView(nextQuestion: Question, answersGiven: seq<AnswerGiven>)

  datatype ServiceError =
    | QuizNotFound(quizId: int)
    | NoCurrentQuestion
    | AlreadyAnswered(questionId: int)
    | AnswerRejected(cause: AnswerError)
      /** `"recommended_products" in result` raises when the engine returned None. */
    | NoResult
    | NotYetAnswered(questionId: int)

  /** The question ids of the history, in order. */
  function QuestionIds(given: seq<AnswerGiven>): (ids: seq<int>)
    ensures |ids| == |given|
    ensures forall i :: 0 <= i < |given| ==> ids[i] == given[i].questionId
  {
    seq(|given|, i requires 0 <= i < |given| => given[i].questionId)
  }

  /** The session invariant: no question answered twice. */
  predicate DistinctHistory(p: Progress) {
    Distinct(QuestionIds(p.answersGiven))
  }

  /** The first published question of the list, as initialisation picks it. */
  function FirstPublishedInList(qs: seq<Question>): (r: Option<int>)
    ensures r.None? <==> forall i :: 0 <= i < |qs| ==> qs[i].status != PUBLISHED
    ensures r.Some? ==> exists i :: (0 <= i < |qs| && qs[i].id == r.value && qs[i].status == PUBLISHED
      && forall j :: 0 <= j < i ==> qs[j].status != PUBLISHED)
  {
    if qs == [] then None
    else if qs[0].status == PUBLISHED then Some(qs[0].id)
    else
      var r := FirstPublishedInList(qs[1..]);
      assert forall i :: 1 <= i < |qs| ==> qs[1..][i - 1] == qs[i];
      r
  }

  /** The progress stored with a new session. */
  function InitialProgress(qs: seq<Question>): (p: Progress)
    ensures p.answersGiven == [] && p.recommendedProducts == []
    ensures p.currentQuestionId.None? <==> forall i :: 0 <= i < |qs| ==> qs[i].status != PUBLISHED
    ensures p.currentQuestionId.Some? ==> exists i :: (0 <= i < |qs| && qs[i].id == p.currentQuestionId.value
      && qs[i].status == PUBLISHED && forall j :: 0 <= j < i ==> qs[j].status != PUBLISHED)
  {
    Progress([], FirstPublishedInList(qs), [])
  }

  /**
   * A fresh session starts where the engine's own default would: for questions with
   * distinct ids (the catalog's grouping yields them) the list's first published question
   * is the dict's first published question.
   */
  lemma InitialProgressMatchesEngineDefault(s: Snapshot)
    requires Distinct(Keys(s.questions, QuestionKey))
    ensures InitialProgress(s.questions) == LoadedProgress(BuildIndex(s), None)
  {
    IndexByDistinct(s.questions, QuestionKey);
    FirstPublishedOverKeys(s.questions, IndexBy(s.questions, QuestionKey));
  }

  lemma {:induction false} FirstPublishedOverKeys(qs: seq<Question>, m: map<int, Question>)
    requires forall i :: 0 <= i < |qs| ==> qs[i].id in m && m[qs[i].id] == qs[i]
    ensures forall i :: 0 <= i < |Keys(qs, QuestionKey)| ==> Keys(qs, QuestionKey)[i] in m
    ensures FirstPublished(Keys(qs, QuestionKey), m) == FirstPublishedInList(qs)
  {
    var ks := Keys(qs, QuestionKey);
    if qs != [] {
      assert ks[1..] == Keys(qs[1..], QuestionKey);
      FirstPublishedOverKeys(qs[1..], m);
    }
  }

  /** With ids repeated, the two can differ: the dict keeps the first key position but the last value. */
  lemma InitialProgressCanDifferOnRepeatedIds()
    ensures var qs := [Question(1, "a", PUBLISHED, []), Question(2, "b", PUBLISHED, []), Question(1, "c", DRAFT, [])];
      && InitialProgress(qs).currentQuestionId == Some(1)
      && LoadedProgress(BuildIndex(Snapshot(qs, [], [], [])), None).currentQuestionId == Some(2)
  {
    var qs := [Question(1, "a", PUBLISHED, []), Question(2, "b", PUBLISHED, []), Question(1, "c", DRAFT, [])];
    var q1, q2 := qs[..1], qs[..2];
    assert qs[..|qs| - 1] == q2 && q2[..|q2| - 1] == q1 && q1[..|q1| - 1] == [];
    assert KeyOrder(q1, QuestionKey) == [1];
    assert KeyOrder(q2, QuestionKey) == [1, 2];
    assert KeyOrder(qs, QuestionKey) == [1, 2];
    assert IndexBy(q2, QuestionKey)[2] == qs[1];
    assert IndexBy(qs, QuestionKey)[1] == qs[2] && IndexBy(qs, QuestionKey)[2] == qs[1];
  }

  /** Whether a question already has an entry in the history. */
  predicate Answered(given: seq<AnswerGiven>, questionId: int) {
    questionId in QuestionIds(given)
  }

  /**
   * Re-querying a session: a stored recommendation is returned as it is, without saving;
   * otherwise the current question is returned and the progress saved back.
   * The first component is the progress written to the collection, if any.
   */
  function ServeFetch(ix: SnapshotIndex, p: Progress): (r: (Option<Progress>, View))
    ensures r.0.None? <==> p.recommendedProducts != []
    ensures r.0.None? ==> r.1 == RecommendationView(p.recommendedProducts, p.answersGiven)
    ensures r.0.Some? ==> (r.0.value == p
      && r.1 == CurrentQuestionView(LookupQuestion(ix.questions, p.currentQuestionId), p.answersGiven))
  {
    if p.recommendedProducts != [] then (None, RecommendationView(p.recommendedProducts, p.answersGiven))
    else (Some(p), CurrentQuestionView(LookupQuestion(ix.questions, p.currentQuestionId), p.answersGiven))
  }

  /** Fetching changes nothing, so fetching again answers the same. */
  lemma FetchIsIdempotent(ix: SnapshotIndex, p: Progress)
    ensures ServeFetch(ix, p).0.GetOr(p) == p
    ensures ServeFetch(ix, ServeFetch(ix, p).0.GetOr(p)) == ServeFetch(ix, p)
    ensures p.recommendedProducts != [] ==>
      ServeFetch(ix, p).1 == RecommendationView(p.recommendedProducts, p.answersGiven)
  {
  }

  /**
   * Answering the current question of a loaded session. Errors raised before the save
   * write nothing; the None outcome raises only after the progress has been saved.
   */
  function ServeAnswer(ix: SnapshotIndex, p: Progress, answerId: int): (r: (Option<Progress>, Result<View, ServiceError>))
    requires WellFormed(ix)
    ensures LookupQuestion(ix.questions, p.currentQuestionId).None? ==> r == (None, Failure(NoCurrentQuestion))
    ensures (p.currentQuestionId.Some? && p.currentQuestionId.value in ix.questions
      && Answered(p.answersGiven, p.currentQuestionId.value)) ==>
        r == (None, Failure(AlreadyAnswered(p.currentQuestionId.value)))
    ensures r.0.None? ==> r.1.Failure? && r.1.error != NoResult
    ensures r.0.Some? ==>
      && p.currentQuestionId.Some? && p.currentQuestionId.value in ix.questions
      && !Answered(p.answersGiven, p.currentQuestionId.value)
      && HasAnswer(ix.questions[p.currentQuestionId.value], answerId)
      && r.0.value.answersGiven == p.answersGiven + [AnswerGiven(p.currentQuestionId.value, answerId)]
    ensures r.1.Success? ==> r.1.value.answersGiven == r.0.value.answersGiven
    ensures var current := LookupQuestion(ix.questions, p.currentQuestionId);
      current.Some? && !Answered(p.answersGiven, current.value.id) ==>
        var (p', outcome) := Step(ix, p, answerId, current.value);
        && r.0 == (if outcome.Success? then Some(p') else None)
        && (outcome.Failure? ==> r.1 == Failure(AnswerRejected(outcome.error)))
        && (outcome.Success? && outcome.value.Recommended? ==>
              r.1 == Success(RecommendationView(outcome.value.products, p'.answersGiven)))
        && (outcome.Success? && outcome.value.NextQuestion? && outcome.value.question.Some? ==>
              r.1 == Success(NextQuestionView(outcome.value.question.value, p'.answersGiven)))
        && (outcome.Success? && (outcome.value.Finished? || (outcome.value.NextQuestion? && outcome.value.question.None?)) ==>
              r.1 == Failure(NoResult))
  {
    var current := LookupQuestion(ix.questions, p.currentQuestionId);
    if current.None? then (None, Failure(NoCurrentQuestion))
    else if Answered(p.answersGiven, current.value.id) then (None, Failure(AlreadyAnswered(current.value.id)))
    else
      var (p', result) := Step(ix, p, answerId, current.value);
      match result
      case Failure(e) => (None, Failure(AnswerRejected(e)))
      case Success(Recommended(recs)) => (Some(p'), Success(RecommendationView(recs, p'.answersGiven)))
      case Success(NextQuestion(Some(q))) => (Some(p'), Success(NextQuestionView(q, p'.answersGiven)))
      case Success(_) => (Some(p'), Failure(NoResult))
  }

  /** The double-answer guard keeps the history free of repeated questions. */
  lemma AnswerKeepsHistoryDistinct(ix: SnapshotIndex, p: Progress, answerId: int)
    requires WellFormed(ix)
    requires DistinctHistory(p)
    ensures ServeAnswer(ix, p, answerId).0.Some? ==> DistinctHistory(ServeAnswer(ix, p, answerId).0.value)
  {
    var saved := ServeAnswer(ix, p, answerId).0;
    if saved.Some? {
      var q := p.currentQuestionId.value;
      var ids := QuestionIds(p.answersGiven);
      assert QuestionIds(saved.value.answersGiven) == ids + [q];
    }
  }

  /**
   * After a recommendation the current question stays the one just answered, so the
   * double-answer guard refuses any further answer until the session is rewound.
   */
  lemma NoAnswerAfterRecommendation(ix: SnapshotIndex, p: Progress, a: int, b: int)
    requires WellFormed(ix)
    requires ServeAnswer(ix, p, a).1.Success? && ServeAnswer(ix, p, a).1.value.RecommendationView?
    ensures var p' := ServeAnswer(ix, p, a).0.value;
      ServeAnswer(ix, p', b) == (None, Failure(AlreadyAnswered(p.currentQuestionId.value)))
  {
    var (saved, r) := ServeAnswer(ix, p, a);
    var p' := saved.value;
    var q := p.currentQuestionId.value;
    var rules := ix.questionTransitions;
    assert ix.questions[q].id == q;
    var step := Step(ix, p, a, ix.questions[q]);
    assert step.1.Success? && step.1.value.Recommended?;
    assert FirstNextIndex(rules, a) == |rules| && CollectProducts(rules, a) != [];
    assert p'.currentQuestionId == Some(q);
    assert QuestionIds(p'.answersGiven)[|p.answersGiven|] == q;
  }

  /** The first entry of the history for that question, if any. */
  function RewindIndex(given: seq<AnswerGiven>, questionId: int): (r: Option<nat>)
    ensures r.None? <==> !Answered(given, questionId)
    ensures r.Some? ==> (r.value < |given| && given[r.value].questionId == questionId
      && forall j :: 0 <= j < r.value ==> given[j].questionId != questionId)
  {
    if given == [] then None
    else if given[0].questionId == questionId then Some(0)
    else
      var rest := RewindIndex(given[1..], questionId);
      assert QuestionIds(given) == [given[0].questionId] + QuestionIds(given[1..]);
      if rest.None? then None else Some(rest.value + 1)
  }

  /**
   * Rewinding: an unanswered question is refused with nothing written; otherwise the history
   * keeps only the entries strictly before the first entry for that question, the question
   * becomes current again, and the stored recommendation is left as it was.
   */
  function ServeRewind(ix: SnapshotIndex, p: Progress, questionId: int): (r: (Option<Progress>, Result<View, ServiceError>))
    ensures !Answered(p.answersGiven, questionId) <==> r == (None, Failure(NotYetAnswered(questionId)))
    ensures Answered(p.answersGiven, questionId) ==> r.0.Some? && r.1.Success?
    ensures r.0.Some? ==>
      var p' := r.0.value;
      var n := |p'.answersGiven|;
      && n < |p.answersGiven|
      && p'.answersGiven == p.answersGiven[..n]
      && p.answersGiven[n].questionId == questionId
      && !Answered(p'.answersGiven, questionId)
      && p'.currentQuestionId == Some(questionId)
      && p'.recommendedProducts == p.recommendedProducts
      && r.1 == Success(CurrentQuestionView(LookupQuestion(ix.questions, Some(questionId)), p'.answersGiven))
  {
    match RewindIndex(p.answersGiven, questionId)
    case None => (None, Failure(NotYetAnswered(questionId)))
    case Some(i) =>
      var p' := p.(answersGiven := p.answersGiven[..i], currentQuestionId := Some(questionId));
      assert forall j :: 0 <= j < i ==> QuestionIds(p'.answersGiven)[j] == p.answersGiven[j].questionId;
      (Some(p'), Success(CurrentQuestionView(LookupQuestion(ix.questions, Some(questionId)), p'.answersGiven)))
  }

  /** A prefix of a history without repeats has none either. */
  lemma RewindKeepsHistoryDistinct(ix: SnapshotIndex, p: Progress, questionId: int)
    requires DistinctHistory(p)
    ensures ServeRewind(ix, p, questionId).0.Some? ==> DistinctHistory(ServeRewind(ix, p, questionId).0.value)
  {
    var saved := ServeRewind(ix, p, questionId).0;
    if saved.Some? {
      var n := |saved.value.answersGiven|;
      assert QuestionIds(saved.value.answersGiven) == QuestionIds(p.answersGiven)[..n];
    }
  }

  /**
   * After a rewind the re-fetch shows the rewound question, unless a recommendation is
   * still stored: rewinding does not clear it, so the stale recommendation is shown instead.
   */
  lemma FetchAfterRewind(ix: SnapshotIndex, p: Progress, questionId: int)
    requires Answered(p.answersGiven, questionId)
    ensures var p' := ServeRewind(ix, p, questionId).0.value;
      ServeFetch(ix, p').1 ==
        if p.recommendedProducts == [] then CurrentQuestionView(LookupQuestion(ix.questions, Some(questionId)), p'.answersGiven)
        else RecommendationView(p.recommendedProducts, p'.answersGiven)
  {
  }

  /** The requests a session serves. */
  datatype Request = Fetch | Submit(answerId: int) | RewindTo(questionId: int)

  /**
   * The progress stored after serving one request: a fetch changes nothing, an answer
   * appends at most one entry for the current question, and a rewind keeps a strict prefix.
   */
  function Handle(ix: SnapshotIndex, p: Progress, req: Request): (r: Progress)
    requires WellFormed(ix)
    ensures req.Fetch? ==> r == p
    ensures req.Submit? ==> (r == p || (p.currentQuestionId.Some?
      && r.answersGiven == p.answersGiven + [AnswerGiven(p.currentQuestionId.value, req.answerId)]))
    ensures req.RewindTo? ==> (r == p || (|r.answersGiven| < |p.answersGiven|
      && r.answersGiven == p.answersGiven[..|r.answersGiven|] && r.currentQuestionId == Some(req.questionId)))
  {
    match req
    case Fetch => ServeFetch(ix, p).0.GetOr(p)
    case Submit(a) => ServeAnswer(ix, p, a).0.GetOr(p)
    case RewindTo(q) => ServeRewind(ix, p, q).0.GetOr(p)
  }

  /** The progress stored after serving the requests in order. */
  function Replay(ix: SnapshotIndex, p: Progress, reqs: seq<Request>): (r: Progress)
    requires WellFormed(ix)
    ensures |r.answersGiven| <= |p.answersGiven| + |reqs|
    ensures (forall i :: 0 <= i < |reqs| ==> reqs[i].Fetch?) ==> r == p
    decreases |reqs|
  {
    if reqs == [] then p else Replay(ix, Handle(ix, p, reqs[0]), reqs[1..])
  }

  /** No sequence of fetches, answers and rewinds ever records a question twice. */
  lemma {:induction false} ReplayKeepsHistoryDistinct(ix: SnapshotIndex, p: Progress, reqs: seq<Request>)
    requires WellFormed(ix)
    requires DistinctHistory(p)
    ensures DistinctHistory(Replay(ix, p, reqs))
    decreases |reqs|
  {
    if reqs != [] {
      match reqs[0] {
        case Fetch =>
        case Submit(a) => AnswerKeepsHistoryDistinct(ix, p, a);
        case RewindTo(q) => RewindKeepsHistoryDistinct(ix, p, q);
      }
      ReplayKeepsHistoryDistinct(ix, Handle(ix, p, reqs[0]), reqs[1..]);
    }
  }

  /** The session a stored document loads into: `progress or {...}`. */
  function Loaded(s: StoredQuiz): (p: Progress)
    ensures s.progress.Some? ==> p == s.progress.value
    ensures s.progress.None? ==> (p.answersGiven == [] && p.recommendedProducts == []
      && p.currentQuestionId == FirstPublished(BuildIndex(s.snapshot).questionOrder, BuildIndex(s.snapshot).questions))
  {
    LoadedProgress(BuildIndex(s.snapshot), s.progress)
  }

  /** The document `init_quiz` writes: the whole catalog and a fresh progress. */
  function Initialised(catalog: Snapshot): (s: StoredQuiz)
    ensures s.snapshot == catalog
    ensures Loaded(s) == InitialProgress(catalog.questions)
    ensures Distinct(Keys(catalog.questions, QuestionKey)) ==> Loaded(s) == LoadedProgress(BuildIndex(catalog), None)
  {
    var s := StoredQuiz(catalog, Some(InitialProgress(catalog.questions)));
    if Distinct(Keys(catalog.questions, QuestionKey)) then
      InitialProgressMatchesEngineDefault(catalog);
      s
    else s
  }

  /** The collection once `get_quiz(…, force_create=True)` has run. */
  function Opened(quizzes: map<int, StoredQuiz>, quizId: int, catalog: Snapshot): (m: map<int, StoredQuiz>)
    ensures quizId in m
    ensures m.Keys == quizzes.Keys + {quizId}
    ensures forall k :: k in quizzes ==> m[k] == quizzes[k]
    ensures quizId !in quizzes ==>
      m[quizId].snapshot == catalog && Loaded(m[quizId]) == InitialProgress(catalog.questions)
  {
    if quizId in quizzes then quizzes else quizzes[quizId := Initialised(catalog)]
  }

  /** The collection after `save_progress`, when something was saved. */
  function Persist(quizzes: map<int, StoredQuiz>, quizId: int, saved: Option<Progress>): (m: map<int, StoredQuiz>)
    requires quizId in quizzes
    ensures m.Keys == quizzes.Keys
    ensures forall k :: k in quizzes && k != quizId ==> m[k] == quizzes[k]
    ensures m[quizId].snapshot == quizzes[quizId].snapshot
    ensures m[quizId].progress == if saved.Some? then saved else quizzes[quizId].progress
  {
    if saved.None? then quizzes else quizzes[quizId := quizzes[quizId].(progress := saved)]
  }

  /**
   * The quiz service over the quiz collection (one document per quiz id) and the catalog
   * that a new quiz snapshots.
   */
  class QuizStore {
    var quizzes: map<int, StoredQuiz>
    const catalog: Snapshot

    constructor (catalog: Snapshot, quizzes: map<int, StoredQuiz>)
      ensures this.catalog == catalog && this.quizzes == quizzes
    {
      this.catalog := catalog;
      this.quizzes := quizzes;
    }

    /** Upserts the document: the catalog snapshot and a progress at its first published question. */
    method InitQuiz(quizId: int)
      modifies this
      ensures quizzes == old(quizzes)[quizId := Initialised(catalog)]
    {
      var first := FirstPublishedInList(catalog.questions);
      quizzes := quizzes[quizId := StoredQuiz(catalog, Some(Progress([], first, [])))];
    }

    /** Loads the session of a quiz, creating the quiz first when asked to and it is missing. */
    method GetQuiz(quizId: int, forceCreate: bool) returns (r: Result<QuizFiller, ServiceError>)
      modifies this
      decreases if forceCreate then 1 else 0
      ensures quizzes == if forceCreate then Opened(old(quizzes), quizId, catalog) else old(quizzes)
      ensures r.Success? <==> quizId in quizzes
      ensures r.Failure? ==> r.error == QuizNotFound(quizId)
      ensures r.Success? ==>
        && fresh(r.value) && r.value.Valid() && r.value.quizId == quizId
        && r.value.AsIndex() == BuildIndex(quizzes[quizId].snapshot)
        && r.value.progress == Loaded(quizzes[quizId])
    {
      if quizId in quizzes {
        var stored := quizzes[quizId];
        var filler := new QuizFiller(quizId, stored.snapshot, stored.progress);
        return Success(filler);
      } else if forceCreate {
        InitQuiz(quizId);
        r := GetQuiz(quizId, false);
      } else {
        return Failure(QuizNotFound(quizId));
      }
    }

    /** Writes the session's progress into its document, if the document exists. */
    method SaveProgress(filler: QuizFiller)
      modifies this
      ensures quizzes == if filler.quizId in old(quizzes) then Persist(old(quizzes), filler.quizId, Some(filler.progress)) else old(quizzes)
    {
      if filler.quizId in quizzes {
        quizzes := quizzes[filler.quizId := quizzes[filler.quizId].(progress := Some(filler.progress))];
      }
    }

    /** The stored recommendation, or the current question with the progress saved back. */
    method GetQuizCurrentQuestion(quizId: int) returns (view: View)
      modifies this
      ensures var ready := Opened(old(quizzes), quizId, catalog);
        var s := ready[quizId];
        var served := ServeFetch(BuildIndex(s.snapshot), Loaded(s));
        view == served.1 && quizzes == Persist(ready, quizId, served.0)
    {
      var loaded := GetQuiz(quizId, true);
      var filler := loaded.value;
      if filler.progress.recommendedProducts != [] {
        return RecommendationView(filler.progress.recommendedProducts, filler.progress.answersGiven);
      }
      var current := filler.GetCurrentQuestion();
      SaveProgress(filler);
      return CurrentQuestionView(current, filler.progress.answersGiven);
    }

    /** Refuses a missing or already answered current question, answers it and saves the progress. */
    method AnswerCurrentQuestion(quizId: int, answerId: int) returns (r: Result<View, ServiceError>)
      modifies this
      ensures quizId !in old(quizzes) ==> r == Failure(QuizNotFound(quizId)) && quizzes == old(quizzes)
      ensures quizId in old(quizzes) ==>
        var s := old(quizzes)[quizId];
        var served := ServeAnswer(BuildIndex(s.snapshot), Loaded(s), answerId);
        r == served.1 && quizzes == Persist(old(quizzes), quizId, served.0)
    {
      var loaded := GetQuiz(quizId, false);
      if loaded.Failure? {
        return Failure(loaded.error);
      }
      var filler := loaded.value;
      var current := filler.GetCurrentQuestion();
      if current.None? {
        return Failure(NoCurrentQuestion);
      }
      if Answered(filler.progress.answersGiven, current.value.id) {
        return Failure(AlreadyAnswered(current.value.id));
      }
      var result := filler.Answer(answerId, current.value);
      if result.Failure? {
        return Failure(AnswerRejected(result.error));
      }
      SaveProgress(filler);
      match result.value
      case Recommended(recs) =>
        return Success(RecommendationView(recs, filler.progress.answersGiven));
      case NextQuestion(next) =>
        if next.None? {
          return Failure(NoResult);
        }
        return Success(NextQuestionView(next.value, filler.progress.answersGiven));
      case Finished =>
        return Failure(NoResult);
    }

    /** Cuts the history before the first answer to the question and makes it current again. */
    method ResetToPreviousQuestion(quizId: int, questionId: int) returns (r: Result<View, ServiceError>)
      modifies this
      ensures quizId !in old(quizzes) ==> r == Failure(QuizNotFound(quizId)) && quizzes == old(quizzes)
      ensures quizId in old(quizzes) ==>
        var s := old(quizzes)[quizId];
        var served := ServeRewind(BuildIndex(s.snapshot), Loaded(s), questionId);
        r == served.1 && quizzes == Persist(old(quizzes), quizId, served.0)
    {
      var loaded := GetQuiz(quizId, false);
      if loaded.Failure? {
        return Failure(loaded.error);
      }
      var filler := loaded.value;
      var given := filler.progress.answersGiven;
      var index: Option<nat> := None;
      var i := 0;
      while i < |given|
        invariant 0 <= i <= |given|
        invariant forall j :: 0 <= j < i ==> given[j].questionId != questionId
      {
        if given[i].questionId == questionId {
          index := Some(i);
          break;
        }
        i := i + 1;
      }
      assert index == RewindIndex(given, questionId) by {
        var k := RewindIndex(given, questionId);
        if index.None? {
          assert !Answered(given, questionId) by {
            forall j | 0 <= j < |given| ensures QuestionIds(given)[j] != questionId { }
          }
        } else {
          assert k.Some? && k.value == index.value by {
            assert Answered(given, questionId) by {
              assert QuestionIds(given)[index.value] == questionId;
            }
          }
        }
      }
      if index.None? {
        return Failure(NotYetAnswered(questionId));
      }
      filler.progress := filler.progress.(answersGiven := given[..index.value], currentQuestionId := Some(questionId));
      SaveProgress(filler);
      var current := filler.GetCurrentQuestion();
      return Success(CurrentQuestionView(current, filler.progress.answersGiven));
    }
  }
}
