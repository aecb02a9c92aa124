/** QuestionController: adding a question to a list, which keeps the
    list's question counter (`Qnum`) in step, and listing a list's
    questions. */
module Questions {
  import opened Common
  import opened Text
  import opened Schema
  import opened QuestionLists

  datatype QuestionRequest = QuestionRequest(qlistId: int, content: Option<string>,
                                             choiceList: Option<string>, answer: string)

  /** `[Required]` on Answer (QlistId is a plain `int` and always present). */
  predicate QuestionRequestValid(req: QuestionRequest) {
    !IsBlank(req.answer)
  }

  function NextQuestionId(questions: seq<Question>): (n: int)
    ensures forall j :: 0 <= j < |questions| ==> questions[j].questionId < n
  {
    NextId(questions, (q: Question) => q.questionId)
  }

  /** The counters and the foreign key of the question table. */
  predicate QuestionTablesValid(lists: seq<QuestionList>, questions: seq<Question>) {
    ListIdsUnique(lists) && QnumMatches(lists, questions) && QuestionsReferToLists(lists, questions)
  }

  /** Adding a question to list `k` and raising that list's `Qnum` by one
      keeps every counter equal to its number of questions. */
  lemma AddQuestionKeepsTables(lists: seq<QuestionList>, questions: seq<Question>, k: nat, q: Question)
    requires QuestionTablesValid(lists, questions)
    requires k < |lists| && q.qlistId == lists[k].qlistId
    ensures QuestionTablesValid(lists[k := lists[k].(qnum := lists[k].qnum + 1)], questions + [q])
  {
    var after := lists[k := lists[k].(qnum := lists[k].qnum + 1)];
    forall i | 0 <= i < |after|
      ensures after[i].qnum == QuestionCount(questions + [q], after[i].qlistId)
    {
      CountWhereAppend(questions, q, InList(lists[i].qlistId));
    }
    assert forall i :: 0 <= i < |lists| ==> after[i].qlistId == lists[i].qlistId;
    forall j | 0 <= j < |questions + [q]|
      ensures FindQuestionList(after, (questions + [q])[j].qlistId).Some?
    {
      if j < |questions| {
        var m := FindQuestionList(lists, questions[j].qlistId).value;
        assert after[m].qlistId == questions[j].qlistId;
      } else {
        assert after[k].qlistId == q.qlistId;
      }
    }
  }

  /** QuestionController.CreateNewQuestion: the question is added to a
      stored list, whose `Qnum` goes up by one; nothing changes otherwise.
      AddQuestionKeepsTables shows that this new state keeps the counters. */
  method CreateNewQuestion(db: Db, req: QuestionRequest) returns (r: Response<Question>)
    modifies db`questionLists, db`questions
    ensures !QuestionRequestValid(req) ==> r == BadRequest
    ensures (QuestionRequestValid(req) && FindQuestionList(old(db.questionLists), req.qlistId).None?) ==> r == NotFound
    ensures r.Ok? <==> QuestionRequestValid(req) && FindQuestionList(old(db.questionLists), req.qlistId).Some?
    ensures !r.Ok? ==> db.questionLists == old(db.questionLists) && db.questions == old(db.questions)
    ensures r.Ok? ==>
      r.value == Question(NextQuestionId(old(db.questions)), req.qlistId,
                          req.content, req.choiceList, req.answer) &&
      db.questions == old(db.questions) + [r.value]
    ensures r.Ok? ==>
      db.questionLists == old(db.questionLists)[FindQuestionList(old(db.questionLists), req.qlistId).value :=
        old(db.questionLists)[FindQuestionList(old(db.questionLists), req.qlistId).value].(
          qnum := old(db.questionLists)[FindQuestionList(old(db.questionLists), req.qlistId).value].qnum + 1)]
  {
    if !QuestionRequestValid(req) {
      return BadRequest;
    }
    var k := FindQuestionList(db.questionLists, req.qlistId);
    if k.None? {
      return NotFound;
    }
    var i := k.value;
    var question := Question(NextQuestionId(db.questions), req.qlistId,
                             req.content, req.choiceList, req.answer);
    db.questionLists := db.questionLists[i := db.questionLists[i].(qnum := db.questionLists[i].qnum + 1)];
    db.questions := db.questions + [question];
    r := Ok(question);
  }

  /** QuestionController.GetQuestionListQuestion: the questions of the list, in table order. */
  function GetQuestionListQuestion(questions: seq<Question>, qlistId: int): (r: seq<Question>)
    ensures forall q :: q in r <==> q in questions && q.qlistId == qlistId
  {
    Filter(questions, InList(qlistId))
  }

  /** A stored list has exactly `Qnum` questions. */
  lemma QuestionsOfListNumberQnum(lists: seq<QuestionList>, questions: seq<Question>, k: nat)
    requires k < |lists| && QnumMatches(lists, questions)
    ensures |GetQuestionListQuestion(questions, lists[k].qlistId)| == lists[k].qnum
  {
    FilterCountAgree(questions, InList(lists[k].qlistId));
  }

  /** A new question is listed last under its own list and under no other. */
  lemma NewQuestionListedLast(questions: seq<Question>, q: Question, qlistId: int)
    ensures GetQuestionListQuestion(questions + [q], qlistId) ==
      GetQuestionListQuestion(questions, qlistId) + (if q.qlistId == qlistId then [q] else [])
  {
    assert (questions + [q])[..|questions|] == questions;
  }
}
