/**
 * The catalog entities as the quiz engine sees them (rows of the questions, answers,
 * products, product_restrictions and question_transitions tables), the status strings
 * the catalog services write, and Python's truthiness of an optional integer column.
 */
module Catalog {
  import opened Wrappers

  const DRAFT: string := "draft"
  const PUBLISHED: string := "published"
  const DISABLED: string := "disabled"

  /** `if x:` on an optional integer column: None and 0 are both falsy. */
  predicate Truthy(x: Option<int>) {
    x.Some? && x.value != 0
  }

  /** `x or None`: a falsy column value is stored as NULL. */
  function OrNone(x: Option<int>): (r: Option<int>)
    ensures r.Some? <==> Truthy(x)
    ensures r.Some? ==> r == x
  {
    if Truthy(x) then x else None
  }

  datatype AnswerOption = AnswerOption(id: int, text: string, status: string)

  datatype Question = Question(id: int, text: string, status: string, answers: seq<AnswerOption>)

  datatype Product = Product(id: int, name: string, description: Option<string>, status: string)

  /** "If `answerId` was given anywhere in the session, never recommend `productId`." */
  datatype Restriction = Restriction(answerId: int, productId: int)

  /** A transition rule: after `answerId`, go to a question or offer a product. */
  datatype Transition = Transition(answerId: int, nextQuestionId: Option<int>, productId: Option<int>)

  predicate Distinct(s: seq<int>) {
    forall i, j :: 0 <= i < j < |s| ==> s[i] != s[j]
  }
}
