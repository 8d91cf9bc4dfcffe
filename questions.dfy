/**
 * The question catalog: grouping the rows of the question/answer join into questions,
 * and the questions and answers tables with their status changes.
 */
module QuestionService {
  import opened Wrappers
  import opened Catalog
  import opened Dicts
  import opened Lifecycle
  import opened QuizFillerDomain

  /**
   * One row of `questions LEFT JOIN answers`. A question without answers gives one row
   * whose answer columns are NULL (`answerId == None`; the answer strings are then unused).
   */
  datatype Row = Row(questionId: int, questionText: string, questionStatus: string,
                     answerId: Option<int>, answerText: string, answerStatus: string)

  function RowQuestionId(r: Row): int {
    r.questionId
  }

  /** The answer a row contributes. */
  function AnswerOf(r: Row): AnswerOption
    requires r.answerId.Some?
  {
    AnswerOption(r.answerId.value, r.answerText, r.answerStatus)
  }

  /** The row a question's header is copied from: its first row. */
  function Header(rows: seq<Row>, questionId: int): (h: Option<Row>)
    ensures h.None? <==> forall i :: 0 <= i < |rows| ==> rows[i].questionId != questionId
    ensures h.Some? ==> exists i :: (0 <= i < |rows| && rows[i] == h.value && h.value.questionId == questionId
      && forall j :: 0 <= j < i ==> rows[j].questionId != questionId)
  {
    if rows == [] then None
    else
      var init := rows[..|rows| - 1];
      var h := Header(init, questionId);
      assert forall i :: 0 <= i < |init| ==> init[i] == rows[i];
      if h.Some? then h
      else if rows[|rows| - 1].questionId == questionId then Some(rows[|rows| - 1])
      else None
  }

  /** The answers listed under a question: its rows with a truthy answer id, in row order. */
  function AnswersFor(rows: seq<Row>, questionId: int): (answers: seq<AnswerOption>)
    ensures |answers| <= |rows|
  {
    if rows == [] then []
    else
      var init := rows[..|rows| - 1];
      var last := rows[|rows| - 1];
      assert forall i :: 0 <= i < |init| ==> init[i] == rows[i];
      AnswersFor(init, questionId) + if last.questionId == questionId && Truthy(last.answerId) then [AnswerOf(last)] else []
  }

  /**
   * Exactly the rows of the question with a truthy answer id contribute: each listed
   * answer comes from such a row, and each such row's answer is listed.
   */
  lemma {:induction false} AnswersForRows(rows: seq<Row>, questionId: int)
    ensures forall a :: a in AnswersFor(rows, questionId) ==> exists i :: (0 <= i < |rows|
      && rows[i].questionId == questionId && Truthy(rows[i].answerId) && AnswerOf(rows[i]) == a)
    ensures forall i :: (0 <= i < |rows| && rows[i].questionId == questionId && Truthy(rows[i].answerId)
      ==> AnswerOf(rows[i]) in AnswersFor(rows, questionId))
  {
    if rows != [] {
      var init := rows[..|rows| - 1];
      AnswersForRows(init, questionId);
      assert forall i :: 0 <= i < |init| ==> init[i] == rows[i];
    }
  }

  /** The question the grouping builds for a question id that occurs in the rows. */
  function Grouped(rows: seq<Row>, questionId: int): (q: Question)
    requires Header(rows, questionId).Some?
    ensures q.id == questionId && q.answers == AnswersFor(rows, questionId)
  {
    var h := Header(rows, questionId).value;
    Question(questionId, h.questionText, h.questionStatus, AnswersFor(rows, questionId))
  }

  /** Adding a row of a question already seen keeps the header of every question. */
  lemma HeaderAppend(rows: seq<Row>, r: Row, questionId: int)
    ensures Header(rows + [r], questionId) ==
      if Header(rows, questionId).Some? then Header(rows, questionId)
      else if r.questionId == questionId then Some(r) else None
    ensures AnswersFor(rows + [r], questionId) ==
      AnswersFor(rows, questionId) + if r.questionId == questionId && Truthy(r.answerId) then [AnswerOf(r)] else []
  {
    assert (rows + [r])[..|rows + [r]| - 1] == rows;
  }

  /** The dict of questions built so far matches the grouping of the rows seen so far. */
  ghost predicate GroupedSoFar(seen: seq<Row>, order: seq<int>, byId: map<int, Question>) {
    && order == KeyOrder(seen, RowQuestionId)
    && (forall k :: k in byId <==> k in order)
    && (forall k :: k in byId ==> Header(seen, k).Some? && byId[k] == Grouped(seen, k))
  }

  /** One row of the loop: a new question gets an entry and a key, a truthy answer is appended. */
  function AddRow(byId: map<int, Question>, row: Row): (m: map<int, Question>)
  {
    var id := row.questionId;
    var withEntry := if id in byId then byId else byId[id := Question(id, row.questionText, row.questionStatus, [])];
    if Truthy(row.answerId) then withEntry[id := withEntry[id].(answers := withEntry[id].answers + [AnswerOf(row)])]
    else withEntry
  }

  /**
   * What one row does to the dict: only its own question's entry changes; an existing entry
   * keeps its header, a new one takes the row's; the row's answer is appended iff its id is truthy.
   */
  lemma AddRowFrame(byId: map<int, Question>, row: Row)
    ensures AddRow(byId, row).Keys == byId.Keys + {row.questionId}
    ensures forall k :: k in byId && k != row.questionId ==> AddRow(byId, row)[k] == byId[k]
    ensures var q := AddRow(byId, row)[row.questionId];
      && q.id == (if row.questionId in byId then byId[row.questionId].id else row.questionId)
      && q.text == (if row.questionId in byId then byId[row.questionId].text else row.questionText)
      && q.status == (if row.questionId in byId then byId[row.questionId].status else row.questionStatus)
      && q.answers == (if row.questionId in byId then byId[row.questionId].answers else [])
        + (if Truthy(row.answerId) then [AnswerOf(row)] else [])
  {
  }

  lemma GroupStep(seen: seq<Row>, row: Row, order: seq<int>, byId: map<int, Question>)
    requires GroupedSoFar(seen, order, byId)
    ensures GroupedSoFar(seen + [row], if row.questionId in byId then order else order + [row.questionId], AddRow(byId, row))
  {
    var next := seen + [row];
    var id := row.questionId;
    var m := AddRow(byId, row);
    KeyOrderStep(seen, row);
    forall k | k in m
      ensures Header(next, k).Some? && m[k] == Grouped(next, k)
    {
      EntryStep(seen, row, byId, k);
    }
  }

  lemma KeyOrderStep(seen: seq<Row>, row: Row)
    ensures KeyOrder(seen + [row], RowQuestionId) ==
      if row.questionId in KeyOrder(seen, RowQuestionId) then KeyOrder(seen, RowQuestionId)
      else KeyOrder(seen, RowQuestionId) + [row.questionId]
  {
    var next := seen + [row];
    assert next[..|next| - 1] == seen;
  }

  /** A question never seen has no answers listed yet. */
  lemma NoAnswersBeforeHeader(seen: seq<Row>, k: int)
    requires Header(seen, k).None?
    ensures AnswersFor(seen, k) == []
  {
    AnswersForRows(seen, k);
    if AnswersFor(seen, k) != [] {
      assert AnswersFor(seen, k)[0] in AnswersFor(seen, k);
    }
  }

  lemma EntryStep(seen: seq<Row>, row: Row, byId: map<int, Question>, k: int)
    requires k in byId ==> Header(seen, k).Some? && byId[k] == Grouped(seen, k)
    requires k !in byId ==> Header(seen, k).None?
    requires k in AddRow(byId, row)
    ensures Header(seen + [row], k).Some? && AddRow(byId, row)[k] == Grouped(seen + [row], k)
  {
    var next := seen + [row];
    var id := row.questionId;
    HeaderAppend(seen, row, k);
    if k != id {
      assert AddRow(byId, row)[k] == byId[k];
    } else if k in byId {
      assert Header(next, k) == Header(seen, k);
    } else {
      NoAnswersBeforeHeader(seen, k);
      assert Header(next, k) == Some(row);
    }
  }

  /** The key order and the dict after the loop has seen `rows`. */
  function GroupRows(rows: seq<Row>): (seq<int>, map<int, Question>) {
    if rows == [] then ([], map[])
    else
      var (order, byId) := GroupRows(rows[..|rows| - 1]);
      var row := rows[|rows| - 1];
      (if row.questionId in byId then order else order + [row.questionId], AddRow(byId, row))
  }

  /** One more row of the prefix is one more pass of the loop. */
  lemma GroupRowsPrefixStep(rows: seq<Row>, n: nat)
    requires n < |rows|
    ensures var (order, byId) := GroupRows(rows[..n]);
      GroupRows(rows[..n + 1]) ==
        (if rows[n].questionId in byId then order else order + [rows[n].questionId], AddRow(byId, rows[n]))
  {
    assert rows[..n + 1][..n] == rows[..n];
  }

  /** The loop's dict is the grouping: first-appearance order, header from the first row, answers in row order. */
  lemma {:induction false} GroupRowsCorrect(rows: seq<Row>)
    ensures GroupedSoFar(rows, GroupRows(rows).0, GroupRows(rows).1)
  {
    if rows != [] {
      var init := rows[..|rows| - 1];
      GroupRowsCorrect(init);
      assert rows == init + [rows[|rows| - 1]];
      GroupStep(init, rows[|rows| - 1], GroupRows(init).0, GroupRows(init).1);
    }
  }

  /**
   * `get_all_questions`: builds the dict of questions row by row, creating an entry at
   * a question's first row and appending each row's answer, then lists the dict's values.
   */
  method GetAllQuestions(rows: seq<Row>) returns (questions: seq<Question>)
    ensures |questions| == |KeyOrder(rows, RowQuestionId)|
    ensures Distinct(Keys(questions, QuestionKey))
    ensures forall i :: 0 <= i < |questions| ==>
      var k := KeyOrder(rows, RowQuestionId)[i];
      Header(rows, k).Some? && questions[i] == Grouped(rows, k)
  {
    var order: seq<int> := [];
    var byId: map<int, Question> := map[];
    var n := 0;
    while n < |rows|
      invariant 0 <= n <= |rows|
      invariant (order, byId) == GroupRows(rows[..n])
    {
      var row := rows[n];
      GroupRowsPrefixStep(rows, n);
      var id := row.questionId;
      if id !in byId {
        byId := byId[id := Question(id, row.questionText, row.questionStatus, [])];
        order := order + [id];
      }
      if Truthy(row.answerId) {
        var q := byId[id];
        byId := byId[id := q.(answers := q.answers + [AnswerOf(row)])];
      }
      n := n + 1;
    }
    assert rows[..n] == rows;
    GroupRowsKeys(rows);
    questions := seq(|order|, i requires 0 <= i < |order| => byId[order[i]]);
    ListedInOrder(rows, order, byId, questions);
  }

  /** Every key of the order has an entry in the dict. */
  lemma GroupRowsKeys(rows: seq<Row>)
    ensures var (order, byId) := GroupRows(rows);
      forall i :: 0 <= i < |order| ==> order[i] in byId
  {
    GroupRowsCorrect(rows);
    var (order, byId) := GroupRows(rows);
    assert forall i :: 0 <= i < |order| ==> order[i] in order;
  }

  /** `list(questions.values())`: the entries in key order, ids distinct. */
  lemma ListedInOrder(rows: seq<Row>, order: seq<int>, byId: map<int, Question>, questions: seq<Question>)
    requires (order, byId) == GroupRows(rows)
    requires |questions| == |order| && forall i :: 0 <= i < |order| ==> order[i] in byId && questions[i] == byId[order[i]]
    ensures |questions| == |KeyOrder(rows, RowQuestionId)|
    ensures Distinct(Keys(questions, QuestionKey))
    ensures forall i :: 0 <= i < |questions| ==>
      var k := KeyOrder(rows, RowQuestionId)[i];
      Header(rows, k).Some? && questions[i] == Grouped(rows, k)
  {
    GroupRowsCorrect(rows);
    forall i | 0 <= i < |questions|
      ensures Keys(questions, QuestionKey)[i] == order[i]
      ensures Header(rows, order[i]).Some? && questions[i] == Grouped(rows, order[i])
    {
      assert order[i] in order;
    }
  }

  /** The grouping of the two-row fixture: one question, with both answers in row order. */
  lemma TwoRowsOneQuestion()
    ensures var rows := [Row(1, "Question 1", PUBLISHED, Some(1), "Answer 1", PUBLISHED),
                         Row(1, "Question 1", PUBLISHED, Some(2), "Answer 2", DRAFT)];
      && KeyOrder(rows, RowQuestionId) == [1]
      && Grouped(rows, 1) == Question(1, "Question 1", PUBLISHED,
           [AnswerOption(1, "Answer 1", PUBLISHED), AnswerOption(2, "Answer 2", DRAFT)])
  {
    var rows := [Row(1, "Question 1", PUBLISHED, Some(1), "Answer 1", PUBLISHED),
                 Row(1, "Question 1", PUBLISHED, Some(2), "Answer 2", DRAFT)];
    assert rows[..1] == [rows[0]] && rows[..|rows| - 1] == rows[..1];
    assert rows[..1][..0] == [];
    assert KeyOrder(rows[..1], RowQuestionId) == [1];
    assert Header(rows[..1], 1) == Some(rows[0]);
    assert AnswersFor(rows[..1], 1) == [AnswerOption(1, "Answer 1", PUBLISHED)];
  }

  datatype QuestionRecord = QuestionRecord(text: string, status: string)

  datatype AnswerRecord = AnswerRecord(text: string, questionId: int, status: string)

  /** The questions and answers tables; ids come from their auto-increment counters. */
  class QuestionTables {
    var questions: map<int, QuestionRecord>
    var answers: map<int, AnswerRecord>
    var nextQuestionId: int
    var nextAnswerId: int

    /** Every stored id lies below its table's counter, so a new id is never taken. */
    ghost predicate Valid()
      reads this
    {
      && (forall k :: k in questions ==> k < nextQuestionId)
      && (forall k :: k in answers ==> k < nextAnswerId)
    }

    constructor ()
      ensures Valid() && questions == map[] && answers == map[]
      ensures nextQuestionId == 1 && nextAnswerId == 1
    {
      questions := map[];
      answers := map[];
      nextQuestionId := 1;
      nextAnswerId := 1;
    }

    /** Inserts a question in draft under a fresh id. */
    method CreateQuestion(text: string) returns (id: int)
      requires Valid()
      modifies this
      ensures Valid()
      ensures id == old(nextQuestionId) && id !in old(questions)
      ensures questions == old(questions)[id := QuestionRecord(text, DRAFT)]
      ensures nextQuestionId == id + 1
      ensures answers == old(answers) && nextAnswerId == old(nextAnswerId)
    {
      id := nextQuestionId;
      questions := questions[id := QuestionRecord(text, DRAFT)];
      nextQuestionId := nextQuestionId + 1;
    }

    /** Sets the question's status by the change; an unknown id changes nothing. */
    method ChangeQuestionStatus(id: int, change: StatusChange)
      requires Valid()
      modifies this
      ensures Valid()
      ensures id !in old(questions) ==> questions == old(questions)
      ensures id in old(questions) ==>
        questions == old(questions)[id := old(questions)[id].(status := Apply(change, old(questions)[id].status))]
      ensures answers == old(answers) && nextQuestionId == old(nextQuestionId) && nextAnswerId == old(nextAnswerId)
    {
      if id !in questions {
        return;
      }
      questions := questions[id := questions[id].(status := Apply(change, questions[id].status))];
    }

    /** Publishes from any status: the draft guard is not in effect. */
    method PublishQuestion(id: int)
      requires Valid()
      modifies this
      ensures Valid()
      ensures id !in old(questions) ==> questions == old(questions)
      ensures id in old(questions) ==> questions == old(questions)[id := old(questions)[id].(status := PUBLISHED)]
      ensures answers == old(answers) && nextQuestionId == old(nextQuestionId) && nextAnswerId == old(nextAnswerId)
    {
      ChangeQuestionStatus(id, ForcePublish);
    }

    /** Disables a published question; a question in any other status is left alone. */
    method DisableQuestion(id: int)
      requires Valid()
      modifies this
      ensures Valid()
      ensures id !in old(questions) || old(questions)[id].status != PUBLISHED ==> questions == old(questions)
      ensures id in old(questions) && old(questions)[id].status == PUBLISHED ==>
        questions == old(questions)[id := old(questions)[id].(status := DISABLED)]
      ensures answers == old(answers) && nextQuestionId == old(nextQuestionId) && nextAnswerId == old(nextAnswerId)
    {
      ChangeQuestionStatus(id, Disable);
    }

    /** Inserts an answer in draft under a fresh id, attached to the given question id. */
    method CreateAnswer(text: string, questionId: int) returns (id: int)
      requires Valid()
      modifies this
      ensures Valid()
      ensures id == old(nextAnswerId) && id !in old(answers)
      ensures answers == old(answers)[id := AnswerRecord(text, questionId, DRAFT)]
      ensures nextAnswerId == id + 1
      ensures questions == old(questions) && nextQuestionId == old(nextQuestionId)
    {
      id := nextAnswerId;
      answers := answers[id := AnswerRecord(text, questionId, DRAFT)];
      nextAnswerId := nextAnswerId + 1;
    }

    /** Sets the answer's status by the change; an unknown id changes nothing. */
    method ChangeAnswerStatus(id: int, change: StatusChange)
      requires Valid()
      modifies this
      ensures Valid()
      ensures id !in old(answers) ==> answers == old(answers)
      ensures id in old(answers) ==>
        answers == old(answers)[id := old(answers)[id].(status := Apply(change, old(answers)[id].status))]
      ensures questions == old(questions) && nextQuestionId == old(nextQuestionId) && nextAnswerId == old(nextAnswerId)
    {
      if id !in answers {
        return;
      }
      answers := answers[id := answers[id].(status := Apply(change, answers[id].status))];
    }

    /** Publishes a draft answer; an answer in any other status is left alone. */
    method PublishAnswer(id: int)
      requires Valid()
      modifies this
      ensures Valid()
      ensures id !in old(answers) || old(answers)[id].status != DRAFT ==> answers == old(answers)
      ensures id in old(answers) && old(answers)[id].status == DRAFT ==>
        answers == old(answers)[id := old(answers)[id].(status := PUBLISHED)]
      ensures questions == old(questions) && nextQuestionId == old(nextQuestionId) && nextAnswerId == old(nextAnswerId)
    {
      ChangeAnswerStatus(id, Publish);
    }

    /** Disables a published answer; an answer in any other status is left alone. */
    method DisableAnswer(id: int)
      requires Valid()
      modifies this
      ensures Valid()
      ensures id !in old(answers) || old(answers)[id].status != PUBLISHED ==> answers == old(answers)
      ensures id in old(answers) && old(answers)[id].status == PUBLISHED ==>
        answers == old(answers)[id := old(answers)[id].(status := DISABLED)]
      ensures questions == old(questions) && nextQuestionId == old(nextQuestionId) && nextAnswerId == old(nextAnswerId)
    {
      ChangeAnswerStatus(id, Disable);
    }
  }
}
