/** ExplanationController: at most one explanation per question, looked up
    by the question, changed by its own id. */
module Explanations {
  import opened Common
  import opened Text
  import opened Schema

  datatype ExplanationRequest = ExplanationRequest(questionId: int, content: string)

  /** `[Required]` on Content (QuestionId is a plain `int` and always present). */
  predicate ExplanationRequestValid(req: ExplanationRequest) {
    !IsBlank(req.content)
  }

  predicate QuestionExists(questions: seq<Question>, questionId: int) {
    exists j :: 0 <= j < |questions| && questions[j].questionId == questionId
  }

  predicate HasExplanation(explanations: seq<Explanation>, questionId: int) {
    exists j :: 0 <= j < |explanations| && explanations[j].questionId == questionId
  }

  /** No question has two explanations. */
  predicate OneExplanationPerQuestion(explanations: seq<Explanation>) {
    forall i, j :: 0 <= i < j < |explanations| ==> explanations[i].questionId != explanations[j].questionId
  }

  function NextExplanationId(explanations: seq<Explanation>): (n: int)
    ensures forall j :: 0 <= j < |explanations| ==> explanations[j].exId < n
  {
    NextId(explanations, (e: Explanation) => e.exId)
  }

  /** ExplanationController.CreateNewExplanation. The `[ApiController]`
      filter answers an invalid body with 400 before the action runs; then
      the question must exist and must not have an explanation yet. */
  method CreateNewExplanation(db: Db, req: ExplanationRequest) returns (r: Response<Explanation>)
    modifies db`explanations
    ensures !ExplanationRequestValid(req) ==> r == BadRequest
    ensures (ExplanationRequestValid(req) && !QuestionExists(db.questions, req.questionId)) ==> r == NotFound
    ensures (ExplanationRequestValid(req) && QuestionExists(db.questions, req.questionId) &&
             HasExplanation(old(db.explanations), req.questionId)) ==> r == BadRequest
    ensures r.Ok? <==> (ExplanationRequestValid(req) && QuestionExists(db.questions, req.questionId) &&
                        !HasExplanation(old(db.explanations), req.questionId))
    ensures r.Ok? ==>
      r.value == Explanation(NextExplanationId(old(db.explanations)), req.content, req.questionId) &&
      db.explanations == old(db.explanations) + [r.value]
    ensures !r.Ok? ==> db.explanations == old(db.explanations)
    ensures OneExplanationPerQuestion(old(db.explanations)) ==> OneExplanationPerQuestion(db.explanations)
  {
    if !ExplanationRequestValid(req) {
      return BadRequest;
    }
    if !QuestionExists(db.questions, req.questionId) {
      return NotFound;
    }
    if HasExplanation(db.explanations, req.questionId) {
      return BadRequest;
    }
    var ex := Explanation(NextExplanationId(db.explanations), req.content, req.questionId);
    db.explanations := db.explanations + [ex];
    r := Ok(ex);
  }

  /** ExplanationController.GetExplanation: the first explanation of the question. */
  function GetExplanation(explanations: seq<Explanation>, questionId: int): (r: Response<Explanation>)
    ensures r.Ok? || r == NotFound
    ensures r == NotFound <==> !HasExplanation(explanations, questionId)
    ensures r.Ok? ==> r.value in explanations && r.value.questionId == questionId
  {
    match Find(explanations, (e: Explanation) => e.questionId == questionId)
    case None => NotFound
    case Some(k) => Ok(explanations[k])
  }

  /** With one explanation per question, the explanation found for a
      question is its only one. */
  lemma GetExplanationIsTheOne(explanations: seq<Explanation>, k: nat)
    requires OneExplanationPerQuestion(explanations) && k < |explanations|
    ensures GetExplanation(explanations, explanations[k].questionId) == Ok(explanations[k])
  {
    var r := GetExplanation(explanations, explanations[k].questionId);
    var e :| e in explanations && e == r.value;
  }

  /** A created explanation is the one found for its question. */
  lemma CreatedExplanationFound(explanations: seq<Explanation>, ex: Explanation)
    requires !HasExplanation(explanations, ex.questionId)
    ensures GetExplanation(explanations + [ex], ex.questionId) == Ok(ex)
  {
    var after := explanations + [ex];
    assert forall j :: 0 <= j < |explanations| ==> after[j] == explanations[j];
    assert after[|explanations|] == ex;
  }

  function FindExplanation(explanations: seq<Explanation>, exId: int): (r: Option<nat>)
    ensures r.Some? ==> r.value < |explanations| && explanations[r.value].exId == exId
    ensures r.None? <==> forall j :: 0 <= j < |explanations| ==> explanations[j].exId != exId
  {
    Find(explanations, (e: Explanation) => e.exId == exId)
  }

  /** ExplanationController.UpdateExplanation: found by the explanation's
      own id (not the question's), and only the content changes. */
  method UpdateExplanation(db: Db, id: int, content: string) returns (r: Response<Explanation>)
    modifies db`explanations
    ensures r == NotFound <==> FindExplanation(old(db.explanations), id).None?
    ensures r == NotFound ==> db.explanations == old(db.explanations)
    ensures r != NotFound ==>
      r == Ok(old(db.explanations)[FindExplanation(old(db.explanations), id).value].(content := content)) &&
      db.explanations == old(db.explanations)[FindExplanation(old(db.explanations), id).value := r.value]
    ensures OneExplanationPerQuestion(old(db.explanations)) ==> OneExplanationPerQuestion(db.explanations)
  {
    var k := FindExplanation(db.explanations, id);
    if k.None? {
      return NotFound;
    }
    var ex := db.explanations[k.value].(content := content);
    db.explanations := db.explanations[k.value := ex];
    r := Ok(ex);
  }

  /** After an update the question's explanation carries the new content,
      and every other question's explanation is as before. */
  lemma UpdatedExplanationFound(explanations: seq<Explanation>, k: nat, content: string, questionId: int)
    requires OneExplanationPerQuestion(explanations) && k < |explanations|
    ensures GetExplanation(explanations[k := explanations[k].(content := content)], explanations[k].questionId) ==
      Ok(explanations[k].(content := content))
    ensures questionId != explanations[k].questionId ==>
      GetExplanation(explanations[k := explanations[k].(content := content)], questionId) ==
      GetExplanation(explanations, questionId)
  {
    var after := explanations[k := explanations[k].(content := content)];
    GetExplanationIsTheOne(after, k);
    if questionId != explanations[k].questionId {
      assert forall j :: 0 <= j < |after| ==> (after[j].questionId == questionId) == (explanations[j].questionId == questionId);
      assert forall j :: 0 <= j < |after| && after[j].questionId == questionId ==> after[j] == explanations[j];
    }
  }
}
