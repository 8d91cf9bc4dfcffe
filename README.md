# Quiz engine: a Dafny model

The system is a product-recommendation quiz. Administrators keep a catalog in five
tables: questions, answers, products, product restrictions and question transitions.
Questions, answers and products move through the statuses draft, published and disabled.
When a user starts a quiz, the whole catalog is copied into a quiz document, together
with the user's progress:

- the answers given so far;
- the current question;
- the products recommended so far.

After each answer the engine reads the transition rules. The first rule for that answer
that names a next question moves the session on. When no rule does, the engine collects
every product the rules offer and drops each product that a restriction ties to any answer
of the session. When neither applies, the session ends.

The model has these parts:

- **Catalog** (`catalog.dfy`): the catalog entities, the status strings, and Python's
  truthiness of an optional integer column (`None` and `0` are both falsy).
- **Dicts** (`dicts.dfy`): how a Python dict comprehension builds a dict from a list.
  The last element with a key wins; keys keep the order in which they first appeared.
- **Resolver** (`resolver.dfy`): the pure decisions of the engine. These are the scan of
  the transition rules, the set of restricted products, and the filtering of the candidates.
- **QuizFillerDomain** (`quiz_filler.dfy`): the engine object `QuizFiller`. Its progress is
  a field that its methods update. Every method is proved against a pure specification:
  `Step`, `FirstPublished`, `LookupQuestion` or a Resolver function.
- **QuizService** (`quiz_service.dfy`): the session service over the quiz collection.
  `QuizStore` holds the documents as a map from quiz id to a document. Its methods are
  proved against the pure `ServeFetch`, `ServeAnswer` and `ServeRewind`, which say what
  is returned and what is saved.
- **Lifecycle** (`lifecycle.dfy`): the status changes, and what guarded and unguarded
  changes can reach.
- **QuestionService**, **ProductService**, **TransitionService** (`questions.dfy`,
  `products.dfy`, `transitions.dfy`): the catalog tables as classes over maps with
  auto-increment counters. This includes the grouping of the question/answer join into
  questions, and the check that a transition has exactly one target.
- **QuizFixtures** (`fixtures.dfy`): the two-question catalog used by the session tests,
  with the outcomes those scenarios lead to.

Several behaviours of the code are modelled as written, even where they look unintended:

- Publishing a question is not guarded. The draft check is commented out, so a disabled
  question can be published again (`Lifecycle.ForcePublishRevives`).
- The end of a quiz does not return normally. The engine returns `None`, and the service
  then evaluates `"recommended_products" in None`, which raises. This happens after the
  progress has been saved. `ServeAnswer` models it as the error `NoResult`, with the
  progress already written.
- Rewinding does not clear the stored recommendation. A re-fetch after a rewind therefore
  shows the old recommendation, not the rewound question (`QuizService.FetchAfterRewind`).
- A recommendation that names an unknown product raises `KeyError` before the save. The
  answer appended in memory is then lost (`UnknownProduct`, nothing saved).
- When the session is created, the service picks the first published question of the
  question list. The engine's own default picks the first published question in dict
  order. The two agree when the question ids are distinct, which the grouping guarantees
  (`QuizService.InitialProgressMatchesEngineDefault`). With repeated ids they can differ
  (`QuizService.InitialProgressCanDifferOnRepeatedIds`).
- `update_question_transition` returns the row count of the update. The connection is
  opened with no client flags (`services/db_config.py:1-6`), so this is MySQL's count of
  changed rows. It is 1 when the id exists and the rule differs from the stored one. It is 0
  when the id is unknown or the same rule is written again. The view reports a 0 as "not
  found or no changes made" (`views/question_transitions_views.py:80`).

Databases, the clock and the network are not modelled. Every table and the quiz
collection are maps held by a class. The rows a query returns are a parameter.

## Model

| member | source | states |
|---|---|---|
| Catalog.OrNone | services/question_transitions.py:59 | `x or None` keeps a truthy value and turns a falsy one (None or 0) into None |
| Dicts.IndexBy | domain/quiz_filler.py:7-8 | every element's id is a key of the dict, and each key maps to an element carrying that id |
| Dicts.IndexByValuesFromList | domain/quiz_filler.py:7-8 | every value of the dict is an element of the list |
| Dicts.IndexByLastWins | domain/quiz_filler.py:7-8 | an element whose id does not occur later in the list is the value stored under its id (the last occurrence overwrites) |
| Dicts.KeyOrder | domain/quiz_filler.py:20 | the dict's iteration order lists each key once, and lists exactly the keys of the dict |
| Dicts.KeyOrderIsFirstAppearance | domain/quiz_filler.py:7 | the iteration order is the order of first appearance in the list |
| Dicts.IndexByDistinct | domain/quiz_filler.py:7-8 | with distinct ids, the iteration order is the list's id order and each id maps to its own element |
| Resolver.FirstNextIndex | domain/quiz_filler.py:99-103 | the position of the first rule for the answer with a truthy next question; no earlier rule has one |
| Resolver.CollectProducts | domain/quiz_filler.py:99-105 | a product id is collected iff some rule for the answer without a truthy next question offers it |
| Resolver.CollectProductsAppend | domain/quiz_filler.py:99-105 | collecting over two lists of rules is collecting over each, in order |
| Resolver.Resolve | domain/quiz_filler.py:91-107 | a next question iff some rule leads to one, and then it is the first such rule's; the products are those offered before that rule |
| Resolver.ResolveIgnoresOtherAnswers | domain/quiz_filler.py:100 | appending a rule for another answer does not change the resolution |
| Resolver.FirstNextIndexAppend | domain/quiz_filler.py:99-103 | appending a rule for another answer leaves the first next-question index as it was, found or not |
| Resolver.RestrictedBy | domain/quiz_filler.py:82-89 | a product is restricted iff some restriction ties it to an answer that was given |
| Resolver.RestrictedByGrows | domain/quiz_filler.py:82-89 | more answers given can only forbid more products |
| Resolver.FilterRestricted | domain/quiz_filler.py:61-65 | a candidate survives iff it is not restricted; at most as many results as candidates |
| Resolver.FilterRestrictedCount | domain/quiz_filler.py:61-65 | an unrestricted candidate keeps its multiplicity and a restricted one disappears |
| Resolver.FilterRestrictedAppend | domain/quiz_filler.py:61-65 | filtering preserves the candidates' order across concatenation |
| Resolver.FilterRestrictedNone | domain/quiz_filler.py:61-65 | with nothing restricted every candidate is kept |
| QuizFillerDomain.BuildIndex | domain/quiz_filler.py:7-10 | the dicts are well formed: each id maps to an entity with that id, the key order lists exactly the question keys |
| QuizFillerDomain.FirstPublished | domain/quiz_filler.py:18-23 | None iff no question is published; otherwise the first published question in dict order |
| QuizFillerDomain.LoadedProgress | domain/quiz_filler.py:12-16 | a stored progress is used as is; otherwise empty history and recommendation, current question the first published one |
| QuizFillerDomain.LookupQuestion | domain/quiz_filler.py:27-30 | a question iff there is a current id and the dict has it, and then the dict's question |
| QuizFillerDomain.AnswerIds | domain/quiz_filler.py:55 | the answer ids of the history, position by position |
| QuizFillerDomain.LookupAll | domain/quiz_filler.py:61-65 | succeeds iff every id is a product, giving the products in order; otherwise fails on the first missing id |
| QuizFillerDomain.Step | domain/quiz_filler.py:32-73 | an invalid answer changes nothing; a valid one is appended, then moves to the first next question, or recommends the unrestricted candidates, or ends the session with the current question cleared |
| QuizFillerDomain.RecommendationAvoidsRestricted | domain/quiz_filler.py:53-69 | a recommendation is stored in the progress, holds only candidates of the answer, and never a product restricted by any answer of the session |
| QuizFillerDomain.QuizFiller.constructor | domain/quiz_filler.py:5-16 | the dicts are built from the snapshot and the progress is the stored one or the default |
| QuizFillerDomain.QuizFiller.FirstQuestionId | domain/quiz_filler.py:18-23 | the loop returns the first published question in dict order |
| QuizFillerDomain.QuizFiller.GetCurrentQuestion | domain/quiz_filler.py:25-30 | None iff there is no current id or it is unknown; otherwise the dict's question with that id |
| QuizFillerDomain.QuizFiller.Answer | domain/quiz_filler.py:32-73 | the new progress and the result are those of `Step` on the old progress |
| QuizFillerDomain.QuizFiller.RestrictedProductsForAnswers | domain/quiz_filler.py:75-89 | the loop returns the products of every restriction whose answer was given |
| QuizFillerDomain.QuizFiller.GetTransitionResult | domain/quiz_filler.py:91-107 | the loop with its break returns `Resolve` of the rules |
| QuizService.QuestionIds | services/quiz_filler.py:97 | the question ids of the history, position by position |
| QuizService.FirstPublishedInList | services/quiz_filler.py:29 | None iff no question of the list is published; otherwise the first published question of the list |
| QuizService.InitialProgress | services/quiz_filler.py:27-31 | an empty history and recommendation; the current question is None iff no question of the list is published, otherwise the first published one of the list |
| QuizService.InitialProgressMatchesEngineDefault | services/quiz_filler.py:27-31 | for distinct ids the stored initial progress equals the engine's default progress |
| QuizService.InitialProgressCanDifferOnRepeatedIds | services/quiz_filler.py:29 | with a repeated id, the list picks question 1 while the dict picks question 2; `get_all_questions` never builds such a list, since its ids are distinct |
| QuizService.ServeFetch | services/quiz_filler.py:69-86 | nothing is saved iff a recommendation is stored, and then it is returned with the answers given; otherwise the progress is saved back unchanged and the current question is returned |
| QuizService.FetchIsIdempotent | services/quiz_filler.py:69-86 | a re-fetch saves back what was loaded, so fetching twice answers the same; a stored recommendation is returned |
| QuizService.ServeAnswer | services/quiz_filler.py:89-115 | a missing current question or an answered one is refused with nothing saved; otherwise the progress `Step` computes is saved iff the engine succeeds, a rejected answer or unknown product is refused with nothing saved, a recommendation or a next question is returned with the saved answers, and the end of the quiz or an unknown next question gives NoResult after the save |
| QuizService.AnswerKeepsHistoryDistinct | services/quiz_filler.py:97-98 | the double-answer guard keeps every question at most once in the history |
| QuizService.NoAnswerAfterRecommendation | services/quiz_filler.py:97-98 | after a recommendation every further answer is refused as already answered |
| QuizService.RewindIndex | services/quiz_filler.py:124-130 | None iff the question was not answered; otherwise the first entry for it |
| QuizService.ServeRewind | services/quiz_filler.py:117-147 | an unanswered question is refused iff it has no entry; otherwise the history is cut strictly before its first entry, it becomes current, the recommendation is kept |
| QuizService.RewindKeepsHistoryDistinct | services/quiz_filler.py:133 | a cut history keeps every question at most once |
| QuizService.FetchAfterRewind | services/quiz_filler.py:136 | after a rewind a re-fetch shows the rewound question, or the stale recommendation if one is stored |
| QuizService.Handle | services/quiz_filler.py:69-147 | a fetch stores the progress unchanged; an answer stores it unchanged or with exactly one entry for the current question appended; a rewind stores it unchanged or cut to a strict prefix with the rewound question current |
| QuizService.Replay | services/quiz_filler.py:69-147 | each request adds at most one history entry, and a run of fetches stores the progress unchanged |
| QuizService.ReplayKeepsHistoryDistinct | services/quiz_filler.py:69-147 | no sequence of fetches, answers and rewinds records a question twice |
| QuizService.Loaded | services/quiz_filler.py:54-61 | a stored progress is loaded as is; a missing or empty one gives an empty history and recommendation at the first published question in dict order (`domain/quiz_filler.py:12-16`) |
| QuizService.Initialised | services/quiz_filler.py:19-31 | the document holds the whole catalog, and loads into the list's first published question; for distinct ids that is the engine's own default |
| QuizService.Persist | domain/quiz_filler.py:109-115 | only the document of the quiz changes, its snapshot is kept, and its progress becomes the saved one when there is one |
| QuizService.Opened | services/quiz_filler.py:54-64 | after a forced open the quiz document exists; every existing document is kept as it was; a new one holds the catalog and loads into its initial progress |
| QuizService.QuizStore.InitQuiz | services/quiz_filler.py:8-38 | the document is upserted with the catalog and a progress at the list's first published question |
| QuizService.QuizStore.GetQuiz | services/quiz_filler.py:45-66 | succeeds iff the document exists (after creating it when forced); fails with quiz-not-found otherwise; the engine is built from the stored snapshot and progress |
| QuizService.QuizStore.SaveProgress | domain/quiz_filler.py:109-115 | the document's progress becomes the engine's progress |
| QuizService.QuizStore.GetQuizCurrentQuestion | services/quiz_filler.py:69-86 | the returned view and the saved collection are those of `ServeFetch` on the opened document |
| QuizService.QuizStore.AnswerCurrentQuestion | services/quiz_filler.py:89-115 | an unknown quiz is refused; otherwise the view and the saved collection are those of `ServeAnswer` |
| QuizService.QuizStore.ResetToPreviousQuestion | services/quiz_filler.py:117-147 | an unknown quiz is refused; otherwise the view and the saved collection are those of `ServeRewind` |
| Lifecycle.Apply | services/quiz.py:184-192 | publish acts only from draft, disable only from published, the unguarded publish always sets published; any change of status is one of these |
| Lifecycle.KnownStaysKnown | services/quiz.py:127-135 | no sequence of changes leads out of draft, published and disabled |
| Lifecycle.GuardedMovesForward | services/product.py:52-60 | guarded changes never move a status backwards and never touch an unknown status |
| Lifecycle.DisabledIsFinal | services/quiz.py:218-226 | under guarded changes a disabled row stays disabled |
| Lifecycle.ForcePublishRevives | services/quiz.py:90-101 | the guarded publish leaves a disabled row alone, the unguarded question publish revives it |
| QuestionService.Header | services/quiz.py:26-32 | None iff no row has the question id; otherwise it is the first row with that id |
| QuestionService.AnswersFor | services/quiz.py:33-38 | no more answers than rows |
| QuestionService.AnswersForRows | services/quiz.py:33-38 | an answer is listed iff a row of the question with a truthy answer id carries it |
| QuestionService.HeaderAppend | services/quiz.py:26-38 | helper of `EntryStep`: a later row never changes a header, and appends its answer only to its own question |
| QuestionService.Grouped | services/quiz.py:26-38 | the question built for an id that occurs in the rows carries that id and the answers of its rows |
| QuestionService.AddRowFrame | services/quiz.py:26-38 | one pass of the loop body (`AddRow`) changes only the row's own entry: a new entry takes the row's header, an existing one keeps its own, and the row's answer is appended iff its id is truthy |
| QuestionService.GroupStep | services/quiz.py:24-38 | one pass of the loop body (`AddRow`) keeps the dict equal to the grouping of the rows seen |
| QuestionService.KeyOrderStep | services/quiz.py:26-27 | helper of `GroupStep`: a new question id is appended to the key order, a seen one leaves it unchanged |
| QuestionService.NoAnswersBeforeHeader | services/quiz.py:26-33 | a question with no row yet has no answers |
| QuestionService.EntryStep | services/quiz.py:26-38 | the entry of one question after a row is the grouping of the longer prefix |
| QuestionService.GroupRowsCorrect | services/quiz.py:23-38 | the loop's dict and key order (`GroupRows`) are the grouping of all rows |
| QuestionService.GetAllQuestions | services/quiz.py:7-40 | one question per distinct id, in first-appearance order, header from its first row, answers in row order |
| QuestionService.ListedInOrder | services/quiz.py:40 | listing the dict's values gives distinct ids in key order |
| QuestionService.TwoRowsOneQuestion | services/test_quiz.py:25-39 | two rows of one question group into one question with both answers |
| QuestionService.QuestionTables.CreateQuestion | services/quiz.py:50-63 | a draft question under a fresh id, nothing else changed; the returned id is the auto-increment value, which the code does not return, exposed only so the contract can name the new row |
| QuestionService.QuestionTables.ChangeQuestionStatus | services/quiz.py:119-133 | an unknown id changes nothing; otherwise only that row's status changes, by `Apply` |
| QuestionService.QuestionTables.PublishQuestion | services/quiz.py:72-101 | the question becomes published from any status; an unknown id changes nothing |
| QuestionService.QuestionTables.DisableQuestion | services/quiz.py:109-135 | a published question becomes disabled; any other changes nothing |
| QuestionService.QuestionTables.CreateAnswer | services/quiz.py:143-158 | a draft answer of the given question under a fresh id, nothing else changed; the returned id is the auto-increment value, which the code does not return, exposed only so the contract can name the new row |
| QuestionService.QuestionTables.ChangeAnswerStatus | services/quiz.py:176-190 | an unknown id changes nothing; otherwise only that row's status changes, by `Apply` |
| QuestionService.QuestionTables.PublishAnswer | services/quiz.py:166-192 | a draft answer becomes published; any other changes nothing |
| QuestionService.QuestionTables.DisableAnswer | services/quiz.py:200-226 | a published answer becomes disabled; any other changes nothing |
| ProductService.ProductTable.CreateProduct | services/product.py:6-23 | a draft product under a fresh id, nothing else changed; the returned id is the auto-increment value, which the code does not return, exposed only so the contract can name the new row |
| ProductService.ProductTable.ChangeStatus | services/product.py:44-58 | an unknown id changes nothing; otherwise only that row's status changes, by `Apply` |
| ProductService.ProductTable.PublishProduct | services/product.py:33-60 | a draft product becomes published; any other changes nothing |
| ProductService.ProductTable.DisableProduct | services/product.py:68-95 | a published product becomes disabled; any other changes nothing |
| ProductService.ProductTable.UpdateProduct | services/product.py:124-135 | the row with the id is overwritten whatever its status; an unknown id changes nothing |
| TransitionService.CheckedRule | services/question_transitions.py:46-59 | refused iff both targets or neither are truthy, neither being NoTarget; otherwise a well-formed rule with falsy targets stored as NULL |
| TransitionService.StoredRuleDecides | services/question_transitions.py:46-49 | a stored rule either leads to a question or offers a product, never both |
| TransitionService.StoredRulesOfferOneEach | services/question_transitions.py:46-49 | over stored rules without a next question, each rule for the answer contributes exactly one candidate |
| TransitionService.TransitionTable.CreateQuestionTransition | services/question_transitions.py:42-62 | a refused rule changes nothing; otherwise the checked rule is inserted under a fresh id and the row count is 1; the new id is the auto-increment value, exposed only so the contract can name the new row |
| TransitionService.TransitionTable.UpdateQuestionTransition | services/question_transitions.py:72-99 | a refused rule changes nothing; otherwise a known id is overwritten and an unknown one changes nothing; the row count is 1 iff the id is known and its rule changed, else 0 |
| TransitionService.CreateWithNextQuestion | services/test_question_transitions.py:39-42 | the stored row is (1, 2, NULL); a zero product id is stored as NULL; neither or both targets are refused |
| QuizFixtures.FixtureIndex | services/test_quiz_filler.py:10-33 | the fixture's dicts hold questions 1 and 2 and products A and B under their ids |
| QuizFixtures.AnswerOneMovesToQuestionTwo | services/test_quiz_filler.py:28 | answer 1 is saved and moves the session to question 2 |
| QuizFixtures.InvalidAnswerRejected | services/test_quiz_filler.py:35-41 | answer 99 to question 1 is refused and nothing is saved |
| QuizFixtures.AnswerThreeRecommendsProductA | services/test_quiz_filler.py:30 | answer 3 recommends product A and keeps question 2 current |
| QuizFixtures.CandidatesForAnswerThree | services/test_quiz_filler.py:27-32 | answer 3 has no next-question rule and one candidate, product 1 |
| QuizFixtures.RestrictionOnEarlierAnswerEmptiesRecommendation | domain/quiz_filler.py:55-65 | a restriction on the earlier answer 1 removes product A from the recommendation |
| QuizFixtures.StoredRecommendationReturned | services/test_quiz_filler.py:44-56 | a stored recommendation is returned on re-fetch, with the answers given |
| QuizFixtures.RewindToQuestionTwo | services/quiz_filler.py:124-139 | rewinding to question 2 drops its answer and keeps the recommendation |

## Left out

- The MySQL and MongoDB connections, cursors and commits are not modelled. Every table and the quiz collection is a map; the rows a query returns are a parameter.
- Database errors are not modelled. The services print them and then either swallow them or re-raise them. `update_question_transition` returns None on a database error; that is not modelled either.
- The Flask views, `app.py` and the React client are not part of this model. They only forward requests and render results.
- The printed messages and logging are not modelled. The not-found and wrong-status paths of the status changes are modelled as changing nothing.
- `QuizService.QuizStore.SaveProgress`: the upsert of a missing document is not modelled. Every caller has just loaded the document, so it always exists.
- `get_all_products`, `get_all_product_restrictions`, `get_question_transitions`, `get_question_transition_by_id`, `get_product_restrictions`, `remove_restriction_by_id` and `delete_question_transition` are not modelled. They are plain reads and deletes. The tables they read enter the model only through the snapshot.
- `create_restriction` is not modelled. It is a plain insert, and a caller in the question views passes it three arguments for two parameters; restrictions enter the model only through the snapshot.
- `QuizFillerDomain.LoadedProgress`: a stored progress is either empty or has all three keys. A missing `recommended_products` behaves as the empty list the model stores, since the code only reads it behind an `in` check; a non-empty progress that lacks `answers_given` or `current_question_id` raises KeyError in the code, and that case is not modelled.
- `QuestionService.GetAllQuestions`: the rows are taken in the order given. The query has no ORDER BY, so the database picks that order.
- `QuestionService.QuestionTables.CreateAnswer`: the question id is not checked against the questions table, just as the code does not check it.
- `QuizFillerDomain.QuizFiller.Answer`: the progress is a value, so aliasing of the progress dict between the engine and the caller is not modelled. An answer appended before a KeyError on an unknown product stays in the engine's progress (`Step`), and the service then saves nothing (`ServeAnswer`).
- `QuizService.QuizStore`: the catalog is a constant of the store, fixed for its lifetime. The code reads the MySQL tables afresh on every `init_quiz`, so documents created at different times may hold different catalogs; the model does not show a catalog changing between two quizzes.
- Strings are compared as sequences of characters. There is no encoding and no collation.
