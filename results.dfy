/** The result-recording actions of the result controller: opening a result
    under the completion-time limit, grading one answer against the
    question's explanation, and grading a whole answer sheet against the
    questions' stored answers.

    Beside each action's own contract, two table invariants are carried:
    question orders are unique within a result, and a result's `Score` is
    the number of its "right" detail rows. */
module Results {
  import opened Common
  import opened Text
  import opened Schema
  import opened Tests

  /** A create-result request; `completeTime` is the `TimeOnly` in seconds. */
  datatype ResultRequest = ResultRequest(accountId: int, testId: int, testAccess: string, completeTime: int)

  const SecondsPerDay := 86400

  /** The `^(private|public)$` pattern on `TestAccess`. */
  function AccessOf(s: string): (a: Option<Access>)
    ensures a.Some? <==> s == "public" || s == "private"
    ensures a.Some? ==> AccessName(a.value) == s
  {
    if s == "public" then Some(Public) else if s == "private" then Some(Private) else None
  }

  /** The request passes model validation: a known access kind and a time
      of day that binds to a `TimeOnly`. */
  predicate ResultRequestValid(req: ResultRequest) {
    AccessOf(req.testAccess).Some? && 0 <= req.completeTime < SecondsPerDay
  }

  /** Name of the `Constant` row holding the time limit, in minutes, of a skill. */
  function TimeLimitName(skill: Skill): string {
    match skill
    case Reading => "readingTime"
    case Listening => "listeningTime"
  }

  /** Position of the test with that id (`Tests.FindAsync`). */
  function TestIndex(tests: seq<Test>, testId: int): Option<nat> {
    Find(tests, (t: Test) => t.testId == testId)
  }

  /** The user test with that id owned by that account. */
  function FindOwnedUserTest(userTests: seq<UserTest>, accountId: int, utestId: int): Option<UserTest> {
    match Find(userTests, (t: UserTest) => t.accountId == accountId && t.utestId == utestId)
    case None => None
    case Some(i) => Some(userTests[i])
  }

  /** The skill of the test a result is recorded against: a public test is
      looked up by id, a private one must also belong to the account. */
  function RecordedSkill(tests: seq<Test>, userTests: seq<UserTest>, req: ResultRequest, access: Access): Option<Skill> {
    match access
    case Public =>
      (match TestIndex(tests, req.testId)
       case None => None
       case Some(i) => Some(tests[i].testSkill))
    case Private =>
      (match FindOwnedUserTest(userTests, req.accountId, req.testId)
       case None => None
       case Some(t) => Some(t.testSkill))
  }

  /** `new TimeOnly(maxMinutes / 60, maxMinutes % 60)` in seconds, with C#'s
      truncating division; `None` when the constructor throws because the
      hour is not in 0..23 or the minute not in 0..59. */
  function MaxTime(maxMinutes: int): (t: Option<int>)
    ensures t.Some? ==> 0 <= t.value < 86400 && t.value % 60 == 0
  {
    var hour := TruncDiv(maxMinutes, 60);
    var minute := TruncRem(maxMinutes, 60);
    if 0 <= hour < 24 && 0 <= minute < 60 then Some(hour * 3600 + minute * 60) else None
  }

  /** The limit converts exactly when it is a minute count within one day,
      and then it is that many minutes. */
  lemma MaxTimeExact(maxMinutes: int)
    ensures MaxTime(maxMinutes).Some? <==> 0 <= maxMinutes < 1440
    ensures MaxTime(maxMinutes).Some? ==> MaxTime(maxMinutes).value == maxMinutes * 60
  {
    var hour := TruncDiv(maxMinutes, 60);
    var minute := TruncRem(maxMinutes, 60);
    if maxMinutes >= 0 {
      assert hour == maxMinutes / 60;
      assert minute == maxMinutes % 60;
    } else if maxMinutes > -60 {
      assert hour == 0 && minute == maxMinutes;
    } else {
      assert hour == -((-maxMinutes) / 60);
      assert (-maxMinutes) / 60 >= 1;
    }
  }

  /** The time limit of a skill in seconds, and how reading it can fail: a
      missing constant answers NotFound, an out-of-day limit throws. */
  function TimeLimit(constants: map<string, real>, skill: Skill): Response<int> {
    var name := TimeLimitName(skill);
    if name !in constants then NotFound
    else match MaxTime(TruncateToInt(constants[name]))
      case None => ServerError
      case Some(seconds) => Ok(seconds)
  }

  /** A found limit is the constant's whole minutes, in seconds. */
  lemma TimeLimitIsWholeMinutes(constants: map<string, real>, skill: Skill)
    ensures TimeLimit(constants, skill).Ok? ==>
      TimeLimitName(skill) in constants &&
      TimeLimit(constants, skill).value == TruncateToInt(constants[TimeLimitName(skill)]) * 60 &&
      0 <= TruncateToInt(constants[TimeLimitName(skill)]) < 1440
  {
    if TimeLimitName(skill) in constants {
      MaxTimeExact(TruncateToInt(constants[TimeLimitName(skill)]));
    }
  }

  /** `UserCompletedNum += 1` on an `int?`: null stays null. */
  function Completed(t: Test): (c: Test)
    ensures c.testId == t.testId && c.testSkill == t.testSkill && c.name == t.name
    ensures t.userCompletedNum.None? ==> c.userCompletedNum.None?
    ensures t.userCompletedNum.Some? ==> c.userCompletedNum == Some(t.userCompletedNum.value + 1)
  {
    t.(userCompletedNum := if t.userCompletedNum.None? then None else Some(t.userCompletedNum.value + 1))
  }

  /** Number of "right" detail rows of a result. */
  function RightCount(details: seq<ResultDetail>, resultId: int): nat {
    CountWhere(details, (d: ResultDetail) => d.resultId == resultId && d.questionState == Right)
  }

  /** Every result's score is the number of its right answers. */
  predicate ScoresMatch(results: seq<Result>, details: seq<ResultDetail>) {
    forall i :: 0 <= i < |results| ==> results[i].score == RightCount(details, results[i].resultId)
  }

  predicate ResultIdsUnique(results: seq<Result>) {
    forall i, j :: 0 <= i < j < |results| ==> results[i].resultId != results[j].resultId
  }

  /** The foreign key from a detail row to its result. */
  predicate DetailsReferToResults(results: seq<Result>, details: seq<ResultDetail>) {
    forall j :: 0 <= j < |details| ==> exists i :: 0 <= i < |results| && results[i].resultId == details[j].resultId
  }

  /** A new result with score 0 under a fresh id matches its (absent) details. */
  lemma {:induction false} NewResultKeepsScores(results: seq<Result>, details: seq<ResultDetail>, res: Result)
    requires ScoresMatch(results, details) && DetailsReferToResults(results, details)
    requires res.score == 0
    requires forall i :: 0 <= i < |results| ==> results[i].resultId != res.resultId
    ensures ScoresMatch(results + [res], details)
  {
    forall j | 0 <= j < |details|
      ensures !(details[j].resultId == res.resultId && details[j].questionState == Right)
    {
      var i :| 0 <= i < |results| && results[i].resultId == details[j].resultId;
    }
    assert RightCount(details, res.resultId) == 0;
    var after := results + [res];
    forall i | 0 <= i < |after| ensures after[i].score == RightCount(details, after[i].resultId) {
      if i < |results| {
        assert after[i] == results[i];
      }
    }
  }

  /** A result whose score went up by `gained`. */
  function Scored(res: Result, gained: nat): (s: Result)
    ensures s.resultId == res.resultId && s.score == res.score + gained
  {
    res.(score := res.score + gained)
  }

  /** Adding detail rows of result `k` and raising its score by their right
      answers keeps every score matching (and the result ids as they were). */
  lemma {:induction false} AddDetailsKeepsScores(results: seq<Result>, details: seq<ResultDetail>, k: nat, rows: seq<ResultDetail>)
    requires ResultIdsUnique(results) && ScoresMatch(results, details)
    requires k < |results|
    requires forall j :: 0 <= j < |rows| ==> rows[j].resultId == results[k].resultId
    ensures var after := results[k := Scored(results[k], RightCount(rows, results[k].resultId))];
      ResultIdsUnique(after) && ScoresMatch(after, details + rows)
  {
    var after := results[k := Scored(results[k], RightCount(rows, results[k].resultId))];
    assert forall i :: 0 <= i < |results| ==> after[i].resultId == results[i].resultId;
    forall i | 0 <= i < |after| ensures after[i].score == RightCount(details + rows, after[i].resultId) {
      var id := results[i].resultId;
      CountWhereConcat(details, rows, (d: ResultDetail) => d.resultId == id && d.questionState == Right);
      if i != k {
        assert id != results[k].resultId by {
          if i < k { assert results[i].resultId != results[k].resultId; }
          else { assert results[k].resultId != results[i].resultId; }
        }
        assert RightCount(rows, id) == 0;
      }
    }
  }

  /** The save step shared by the two grading actions: the detail rows of
      result `k` go in and its score rises by their right answers. */
  method SaveGraded(db: Db, k: nat, rows: seq<ResultDetail>)
    requires k < |db.results|
    requires forall j :: 0 <= j < |rows| ==> rows[j].resultId == db.results[k].resultId
    modifies db`results, db`resultDetails
    ensures db.results == old(db.results)[k := Scored(old(db.results)[k], RightCount(rows, old(db.results)[k].resultId))]
    ensures db.resultDetails == old(db.resultDetails) + rows
    ensures ResultIdsUnique(old(db.results)) && ScoresMatch(old(db.results), old(db.resultDetails)) ==>
      ResultIdsUnique(db.results) && ScoresMatch(db.results, db.resultDetails)
  {
    if ResultIdsUnique(db.results) && ScoresMatch(db.results, db.resultDetails) {
      AddDetailsKeepsScores(db.results, db.resultDetails, k, rows);
    }
    db.results := db.results[k := Scored(db.results[k], RightCount(rows, db.results[k].resultId))];
    db.resultDetails := db.resultDetails + rows;
  }

  /** ResultController.CreateNewResult. `now` is the database's
      `CURRENT_TIMESTAMP` default for `date_make`; `score` takes its default 0. */
  method CreateNewResult(db: Db, req: ResultRequest, now: Date) returns (r: Response<Result>)
    modifies db`tests, db`results
    ensures !ResultRequestValid(req) ==> r == BadRequest
    ensures ResultRequestValid(req) && req.accountId !in db.accounts ==> r == NotFound
    ensures (ResultRequestValid(req) && req.accountId in db.accounts &&
             RecordedSkill(old(db.tests), db.userTests, req, AccessOf(req.testAccess).value).None?) ==> r == NotFound
    ensures r.Ok? <==>
      ResultRequestValid(req) && req.accountId in db.accounts &&
      var skill := RecordedSkill(old(db.tests), db.userTests, req, AccessOf(req.testAccess).value);
      skill.Some? && TimeLimit(db.constants, skill.value).Ok? &&
      req.completeTime <= TimeLimit(db.constants, skill.value).value
    ensures (ResultRequestValid(req) && req.accountId in db.accounts &&
             RecordedSkill(old(db.tests), db.userTests, req, AccessOf(req.testAccess).value).Some?) ==>
      var limit := TimeLimit(db.constants, RecordedSkill(old(db.tests), db.userTests, req, AccessOf(req.testAccess).value).value);
      (limit == NotFound ==> r == NotFound) &&
      (limit == ServerError ==> r == ServerError) &&
      (limit.Ok? && req.completeTime > limit.value ==> r == BadRequest)
    ensures r.Ok? ==>
      r.value.score == 0 && r.value.accountId == req.accountId && r.value.testId == req.testId &&
      AccessName(r.value.testAccess) == req.testAccess && r.value.dateMake == now &&
      r.value.completeTime == req.completeTime &&
      (forall i :: 0 <= i < |old(db.results)| ==> old(db.results)[i].resultId < r.value.resultId) &&
      db.results == old(db.results) + [r.value]
    ensures (r.Ok? && req.testAccess == "public") ==>
      var i := TestIndex(old(db.tests), req.testId).value;
      db.tests == old(db.tests)[i := Completed(old(db.tests)[i])]
    ensures !(r.Ok? && req.testAccess == "public") ==> db.tests == old(db.tests)
    ensures !r.Ok? ==> db.results == old(db.results)
    ensures (ScoresMatch(old(db.results), db.resultDetails) &&
             DetailsReferToResults(old(db.results), db.resultDetails)) ==>
            ScoresMatch(db.results, db.resultDetails)
  {
    if !ResultRequestValid(req) {
      return BadRequest;
    }
    var access := AccessOf(req.testAccess).value;
    if req.accountId !in db.accounts {
      return NotFound;
    }
    var skill: Skill;
    var publicIndex: nat := 0;
    if access == Public {
      var found := TestIndex(db.tests, req.testId);
      if found.None? {
        return NotFound;
      }
      publicIndex := found.value;
      skill := db.tests[publicIndex].testSkill;
    } else {
      var test := FindOwnedUserTest(db.userTests, req.accountId, req.testId);
      if test.None? {
        return NotFound;
      }
      skill := test.value.testSkill;
    }
    var name := TimeLimitName(skill);
    if name !in db.constants {
      return NotFound;
    }
    var maxMinutes := TruncateToInt(db.constants[name]);
    var maxTime := MaxTime(maxMinutes);
    if maxTime.None? {
      return ServerError;
    }
    if req.completeTime > maxTime.value {
      return BadRequest;
    }
    if access == Public {
      db.tests := db.tests[publicIndex := Completed(db.tests[publicIndex])];
    }
    var result := Result(NextId(db.results, (x: Result) => x.resultId), 0, req.accountId, req.testId,
                         access, now, req.completeTime);
    if ScoresMatch(db.results, db.resultDetails) && DetailsReferToResults(db.results, db.resultDetails) {
      NewResultKeepsScores(db.results, db.resultDetails, result);
    }
    db.results := db.results + [result];
    r := Ok(result);
  }

  /** A create-detail request. */
  datatype DetailRequest = DetailRequest(resultId: int, questionOrder: int, questionId: int, userAnswer: string)

  /** `QuestionOrder` is in 1..40 and `UserAnswer` is required. */
  predicate DetailRequestValid(req: DetailRequest) {
    1 <= req.questionOrder <= 40 && !IsBlank(req.userAnswer)
  }

  /** Position of the result with that id (`Results.FindAsync`). */
  function ResultIndex(results: seq<Result>, resultId: int): Option<nat> {
    Find(results, (x: Result) => x.resultId == resultId)
  }

  predicate HasDetail(details: seq<ResultDetail>, resultId: int, order: int) {
    exists j :: 0 <= j < |details| && details[j].resultId == resultId && details[j].questionOrder == order
  }

  /** Within one result no two detail rows share a question order. */
  predicate OrdersUniquePerResult(details: seq<ResultDetail>) {
    forall i, j :: 0 <= i < j < |details| && details[i].resultId == details[j].resultId ==>
      details[i].questionOrder != details[j].questionOrder
  }

  /** The first explanation of a question. */
  function FirstExplanation(explanations: seq<Explanation>, questionId: int): (r: Option<Explanation>)
    ensures r.Some? ==> r.value in explanations && r.value.questionId == questionId
    ensures r.None? <==> forall j :: 0 <= j < |explanations| ==> explanations[j].questionId != questionId
  {
    match Find(explanations, (e: Explanation) => e.questionId == questionId)
    case None => None
    case Some(i) => Some(explanations[i])
  }

  /** The explanation-based rule: the explanation equals the answer with
      trailing white space removed, case-sensitively. */
  predicate ExplanationAccepts(content: string, answer: string) {
    content == TrimEnd(answer)
  }

  /** The answer-field rule: lower-cased and trimmed on both sides, then equal. */
  predicate AnswerAccepts(expected: string, answer: string) {
    Trim(Lower(expected)) == Trim(Lower(answer))
  }

  function StateOf(right: bool): (s: QuestionState)
    ensures s == Right <==> right
  {
    if right then Right else Wrong
  }

  /** The next key of the detail table. */
  function NextDetailId(details: seq<ResultDetail>): (n: int)
    ensures forall j :: 0 <= j < |details| ==> details[j].detailId < n
  {
    NextId(details, (d: ResultDetail) => d.detailId)
  }

  /** A detail whose (result, order) is not yet used keeps orders unique. */
  lemma {:induction false} AddDetailKeepsOrdersUnique(details: seq<ResultDetail>, d: ResultDetail)
    requires OrdersUniquePerResult(details)
    requires !HasDetail(details, d.resultId, d.questionOrder)
    ensures OrdersUniquePerResult(details + [d])
  {
    var after := details + [d];
    forall i, j | 0 <= i < j < |after| && after[i].resultId == after[j].resultId
      ensures after[i].questionOrder != after[j].questionOrder
    {
      if j == |details| {
        assert after[i] == details[i];
      } else {
        assert after[i] == details[i] && after[j] == details[j];
      }
    }
  }

  lemma RightCountOne(d: ResultDetail)
    ensures RightCount([d], d.resultId) == (if d.questionState == Right then 1 else 0)
  {
    assert [d][..0] == [];
  }

  /** ResultController.CreateNewDetail. */
  method CreateNewDetail(db: Db, req: DetailRequest) returns (r: Response<ResultDetail>)
    modifies db`results, db`resultDetails
    ensures !DetailRequestValid(req) ==> r == BadRequest
    ensures DetailRequestValid(req) && ResultIndex(old(db.results), req.resultId).None? ==> r == NotFound
    ensures (DetailRequestValid(req) && ResultIndex(old(db.results), req.resultId).Some? &&
             HasDetail(old(db.resultDetails), req.resultId, req.questionOrder)) ==> r == BadRequest
    ensures (DetailRequestValid(req) && ResultIndex(old(db.results), req.resultId).Some? &&
             !HasDetail(old(db.resultDetails), req.resultId, req.questionOrder) &&
             FirstExplanation(db.explanations, req.questionId).None?) ==> r == NotFound
    ensures r.Ok? <==>
      DetailRequestValid(req) && ResultIndex(old(db.results), req.resultId).Some? &&
      !HasDetail(old(db.resultDetails), req.resultId, req.questionOrder) &&
      FirstExplanation(db.explanations, req.questionId).Some?
    ensures r.Ok? ==>
      var k := ResultIndex(old(db.results), req.resultId).value;
      var right := ExplanationAccepts(FirstExplanation(db.explanations, req.questionId).value.content, req.userAnswer);
      r.value == ResultDetail(NextDetailId(old(db.resultDetails)), req.resultId, req.questionOrder,
                              req.questionId, req.userAnswer, StateOf(right)) &&
      db.resultDetails == old(db.resultDetails) + [r.value] &&
      db.results == old(db.results)[k := Scored(old(db.results)[k], if right then 1 else 0)]
    ensures !r.Ok? ==> db.results == old(db.results) && db.resultDetails == old(db.resultDetails)
    ensures OrdersUniquePerResult(old(db.resultDetails)) ==> OrdersUniquePerResult(db.resultDetails)
    ensures ResultIdsUnique(old(db.results)) && ScoresMatch(old(db.results), old(db.resultDetails)) ==>
      ResultIdsUnique(db.results) && ScoresMatch(db.results, db.resultDetails)
  {
    if !DetailRequestValid(req) {
      return BadRequest;
    }
    var found := ResultIndex(db.results, req.resultId);
    if found.None? {
      return NotFound;
    }
    var k := found.value;
    if exists j :: 0 <= j < |db.resultDetails| && db.resultDetails[j].resultId == req.resultId &&
                   db.resultDetails[j].questionOrder == req.questionOrder {
      return BadRequest;
    }
    var ex := FirstExplanation(db.explanations, req.questionId);
    if ex.None? {
      return NotFound;
    }
    var right := ex.value.content == TrimEnd(req.userAnswer);
    var detail := ResultDetail(NextDetailId(db.resultDetails), req.resultId, req.questionOrder,
                               req.questionId, req.userAnswer, StateOf(right));
    if OrdersUniquePerResult(db.resultDetails) {
      AddDetailKeepsOrdersUnique(db.resultDetails, detail);
    }
    RightCountOne(detail);
    SaveGraded(db, k, [detail]);
    r := Ok(detail);
  }

  /** One line of an answer sheet with the stored answer of its question. */
  datatype GradedAnswer = GradedAnswer(questionId: int, userAnswer: string, expected: string)

  /** Whether a line is right: the answer-sheet rule applied to the line. */
  predicate IsRight(g: GradedAnswer) {
    AnswerAccepts(g.expected, g.userAnswer)
  }

  /** The outcome of grading a sheet: the graded lines, or the first failure. */
  datatype Grading = Graded(answers: seq<GradedAnswer>) | MissingAnswer | MissingQuestion

  /** `Questions.FindAsync(id)`. */
  function FindQuestion(questions: seq<Question>, questionId: int): (r: Option<Question>)
    ensures r.Some? ==> r.value in questions && r.value.questionId == questionId
    ensures r.None? <==> forall j :: 0 <= j < |questions| ==> questions[j].questionId != questionId
  {
    match Find(questions, (q: Question) => q.questionId == questionId)
    case None => None
    case Some(i) => Some(questions[i])
  }

  /** Line `i` of a sheet can be graded: `userAnswers[i + 1]` exists (a
      missing key throws) and so does question `questionIds[i]`. */
  predicate LineGradable(questions: seq<Question>, userAnswers: map<int, string>, questionIds: seq<int>, i: nat)
    requires i < |questionIds|
  {
    i + 1 in userAnswers && FindQuestion(questions, questionIds[i]).Some?
  }

  /** Line `i` of a gradable sheet: question `questionIds[i]`, answered by
      `userAnswers[i + 1]`, against the question's stored answer. */
  function GradeLine(questions: seq<Question>, userAnswers: map<int, string>, questionIds: seq<int>, i: nat): (g: GradedAnswer)
    requires i < |questionIds| && LineGradable(questions, userAnswers, questionIds, i)
    ensures g.questionId == questionIds[i] && g.userAnswer == userAnswers[i + 1]
    ensures g.expected == FindQuestion(questions, questionIds[i]).value.answer
  {
    GradedAnswer(questionIds[i], userAnswers[i + 1], FindQuestion(questions, questionIds[i]).value.answer)
  }

  /** Grading the first `n` lines in order, stopping at the first failure. */
  function Grade(questions: seq<Question>, userAnswers: map<int, string>, questionIds: seq<int>, n: nat): (g: Grading)
    requires n <= |questionIds|
    ensures g.Graded? ==> |g.answers| == n
  {
    if n == 0 then Graded([])
    else
      var before := Grade(questions, userAnswers, questionIds, n - 1);
      if !before.Graded? then before
      else if n !in userAnswers then MissingAnswer
      else if FindQuestion(questions, questionIds[n - 1]).None? then MissingQuestion
      else Graded(before.answers + [GradeLine(questions, userAnswers, questionIds, n - 1)])
  }

  /** Number of right lines. */
  function Rights(lines: seq<GradedAnswer>): nat {
    CountWhere(lines, IsRight)
  }

  /** The detail row of line `i`: question order `i + 1`, in state right
      exactly when the line is right; the database numbers the rows from
      `firstId`. */
  function DetailRow(resultId: int, firstId: int, i: int, line: GradedAnswer): ResultDetail {
    ResultDetail(firstId + i, resultId, i + 1, line.questionId, line.userAnswer, StateOf(IsRight(line)))
  }

  /** The detail rows of a graded sheet, one per line in order. */
  function DetailRows(resultId: int, firstId: int, lines: seq<GradedAnswer>): (rows: seq<ResultDetail>)
    ensures |rows| == |lines|
  {
    if lines == [] then []
    else DetailRows(resultId, firstId, lines[..|lines| - 1]) + [DetailRow(resultId, firstId, |lines| - 1, lines[|lines| - 1])]
  }

  /** Row `i` of a graded sheet is the detail row of line `i`. */
  lemma {:induction false} DetailRowsAt(resultId: int, firstId: int, lines: seq<GradedAnswer>)
    ensures forall i :: 0 <= i < |lines| ==> DetailRows(resultId, firstId, lines)[i] == DetailRow(resultId, firstId, i, lines[i])
  {
    if lines != [] {
      var n := |lines| - 1;
      var rows := DetailRows(resultId, firstId, lines);
      var before := DetailRows(resultId, firstId, lines[..n]);
      assert rows == before + [DetailRow(resultId, firstId, n, lines[n])];
      DetailRowsAt(resultId, firstId, lines[..n]);
      forall i | 0 <= i < |lines| ensures rows[i] == DetailRow(resultId, firstId, i, lines[i]) {
        if i < n {
          assert rows[i] == before[i];
          assert lines[..n][i] == lines[i];
        }
      }
    }
  }

  /** A sheet grades exactly when every line has an answer and an existing
      question. */
  lemma {:induction false} GradeSucceedsIff(questions: seq<Question>, userAnswers: map<int, string>, questionIds: seq<int>, n: nat)
    requires n <= |questionIds|
    ensures Grade(questions, userAnswers, questionIds, n).Graded? <==>
      (forall i :: 0 <= i < n ==> LineGradable(questions, userAnswers, questionIds, i))
  {
    if n > 0 {
      GradeSucceedsIff(questions, userAnswers, questionIds, n - 1);
      var before := Grade(questions, userAnswers, questionIds, n - 1);
      if !before.Graded? {
        var i :| 0 <= i < n - 1 && !LineGradable(questions, userAnswers, questionIds, i);
      } else if !LineGradable(questions, userAnswers, questionIds, n - 1) {
        assert !Grade(questions, userAnswers, questionIds, n).Graded?;
      }
    }
  }

  /** A sheet that grades has one line per question, each the graded line. */
  lemma {:induction false} GradeLines(questions: seq<Question>, userAnswers: map<int, string>, questionIds: seq<int>, n: nat)
    requires n <= |questionIds|
    requires Grade(questions, userAnswers, questionIds, n).Graded?
    ensures |Grade(questions, userAnswers, questionIds, n).answers| == n
    ensures forall i :: 0 <= i < n ==>
      (LineGradable(questions, userAnswers, questionIds, i) &&
       Grade(questions, userAnswers, questionIds, n).answers[i] == GradeLine(questions, userAnswers, questionIds, i))
  {
    if n > 0 {
      var before := Grade(questions, userAnswers, questionIds, n - 1);
      GradeLines(questions, userAnswers, questionIds, n - 1);
      var lines := Grade(questions, userAnswers, questionIds, n).answers;
      assert lines == before.answers + [GradeLine(questions, userAnswers, questionIds, n - 1)];
    }
  }

  /** Once grading has failed, grading more lines fails the same way. */
  lemma {:induction false} GradeFailurePersists(questions: seq<Question>, userAnswers: map<int, string>, questionIds: seq<int>, n: nat, m: nat)
    requires n <= m <= |questionIds|
    requires !Grade(questions, userAnswers, questionIds, n).Graded?
    ensures Grade(questions, userAnswers, questionIds, m) == Grade(questions, userAnswers, questionIds, n)
    decreases m - n
  {
    if n < m {
      GradeFailurePersists(questions, userAnswers, questionIds, n, m - 1);
    }
  }

  /** The right rows of a graded sheet are its right lines. */
  lemma {:induction false} DetailRowsRights(resultId: int, firstId: int, lines: seq<GradedAnswer>)
    ensures RightCount(DetailRows(resultId, firstId, lines), resultId) == Rights(lines)
    ensures forall j :: 0 <= j < |lines| ==> DetailRows(resultId, firstId, lines)[j].resultId == resultId
  {
    if lines != [] {
      var n := |lines| - 1;
      DetailRowsRights(resultId, firstId, lines[..n]);
    }
  }

  /** Grading one more line of a sheet graded so far appends that line. */
  lemma GradeStep(questions: seq<Question>, userAnswers: map<int, string>, questionIds: seq<int>, i: nat,
                  lines: seq<GradedAnswer>)
    requires i < |questionIds| && Grade(questions, userAnswers, questionIds, i) == Graded(lines)
    requires LineGradable(questions, userAnswers, questionIds, i)
    ensures Grade(questions, userAnswers, questionIds, i + 1) ==
      Graded(lines + [GradeLine(questions, userAnswers, questionIds, i)])
  {
  }

  /** Rows and right answers of a sheet extended by one line. */
  lemma SheetStep(resultId: int, firstId: int, lines: seq<GradedAnswer>, line: GradedAnswer)
    ensures DetailRows(resultId, firstId, lines + [line]) ==
      DetailRows(resultId, firstId, lines) + [DetailRow(resultId, firstId, |lines|, line)]
    ensures Rights(lines + [line]) == Rights(lines) + (if IsRight(line) then 1 else 0)
  {
    assert (lines + [line])[..|lines|] == lines;
    CountWhereAppend(lines, line, IsRight);
  }

  /** The grading loop of CreateListResultDetails. It stops at the first
      line that throws or misses its question; otherwise it yields the
      detail rows numbered from `firstId` and the number of right answers. */
  method GradeSheet(questions: seq<Question>, userAnswers: map<int, string>, questionIds: seq<int>,
                    resultId: int, firstId: int)
    returns (g: Grading, rows: seq<ResultDetail>, gained: nat)
    ensures g == Grade(questions, userAnswers, questionIds, |questionIds|)
    ensures g.Graded? ==> rows == DetailRows(resultId, firstId, g.answers) && gained == Rights(g.answers)
  {
    rows, gained := [], 0;
    var lines: seq<GradedAnswer> := [];
    for i := 0 to |questionIds|
      invariant Grade(questions, userAnswers, questionIds, i) == Graded(lines)
      invariant |lines| == i
      invariant rows == DetailRows(resultId, firstId, lines)
      invariant gained == Rights(lines)
    {
      var questionId := questionIds[i];
      if i + 1 !in userAnswers {
        assert Grade(questions, userAnswers, questionIds, i + 1) == MissingAnswer;
        GradeFailurePersists(questions, userAnswers, questionIds, i + 1, |questionIds|);
        return MissingAnswer, rows, gained;
      }
      var userAnswer := userAnswers[i + 1];
      var question := FindQuestion(questions, questionId);
      if question.None? {
        assert Grade(questions, userAnswers, questionIds, i + 1) == MissingQuestion;
        GradeFailurePersists(questions, userAnswers, questionIds, i + 1, |questionIds|);
        return MissingQuestion, rows, gained;
      }
      var line := GradedAnswer(questionId, userAnswer, question.value.answer);
      var right := IsRight(line);
      assert line == GradeLine(questions, userAnswers, questionIds, i);
      GradeStep(questions, userAnswers, questionIds, i, lines);
      SheetStep(resultId, firstId, lines, line);
      if right {
        gained := gained + 1;
      }
      rows := rows + [DetailRow(resultId, firstId, i, line)];
      lines := lines + [line];
    }
    g := Graded(lines);
  }

  /** ResultController.CreateListResultDetails: the rows and the new score
      are saved only when every line graded. */
  method CreateListResultDetails(db: Db, resultId: int, userAnswers: map<int, string>, questionIds: seq<int>)
    returns (r: Response<int>)
    modifies db`results, db`resultDetails
    ensures ResultIndex(old(db.results), resultId).None? ==> r == NotFound
    ensures ResultIndex(old(db.results), resultId).Some? ==>
      var g := Grade(db.questions, userAnswers, questionIds, |questionIds|);
      (g.MissingAnswer? ==> r == ServerError) &&
      (g.MissingQuestion? ==> r == NotFound) &&
      (g.Graded? ==>
        var k := ResultIndex(old(db.results), resultId).value;
        r == Ok(old(db.results)[k].score + Rights(g.answers)) &&
        db.results == old(db.results)[k := Scored(old(db.results)[k], Rights(g.answers))] &&
        db.resultDetails == old(db.resultDetails) + DetailRows(resultId, NextDetailId(old(db.resultDetails)), g.answers))
    ensures !r.Ok? ==> db.results == old(db.results) && db.resultDetails == old(db.resultDetails)
    ensures ResultIdsUnique(old(db.results)) && ScoresMatch(old(db.results), old(db.resultDetails)) ==>
      ResultIdsUnique(db.results) && ScoresMatch(db.results, db.resultDetails)
  {
    var found := ResultIndex(db.results, resultId);
    if found.None? {
      return NotFound;
    }
    var k := found.value;
    assert db.results[k].resultId == resultId;
    var g, rows, gained := GradeSheet(db.questions, userAnswers, questionIds, resultId, NextDetailId(db.resultDetails));
    if g.MissingAnswer? {
      return ServerError;
    }
    if g.MissingQuestion? {
      return NotFound;
    }
    assert rows == DetailRows(resultId, NextDetailId(db.resultDetails), g.answers);
    DetailRowsRights(resultId, NextDetailId(db.resultDetails), g.answers);
    assert RightCount(rows, resultId) == Rights(g.answers);
    ghost var before := db.results[k];
    ghost var detailsBefore := db.resultDetails;
    SaveGraded(db, k, rows);
    assert db.resultDetails == detailsBefore + rows;
    assert db.results[k] == Scored(before, Rights(g.answers));
    r := Ok(db.results[k].score);
  }

  /** The answer-sheet rule is the case-insensitive comparison of the trimmed strings. */
  lemma AnswerAcceptsIgnoresCaseAndSpace(expected: string, answer: string)
    ensures AnswerAccepts(expected, answer) <==> EqualsIgnoreCase(Trim(expected), Trim(answer))
  {
    LowerTrimCommute(expected);
    LowerTrimCommute(answer);
  }

  /** Whatever the explanation rule accepts the answer-sheet rule accepts too. */
  lemma StrictAcceptanceImpliesLenient(content: string, answer: string)
    ensures ExplanationAccepts(content, answer) ==> AnswerAccepts(content, answer)
  {
    if ExplanationAccepts(content, answer) {
      LowerTrimCommute(content);
      LowerTrimCommute(answer);
      TrimEndIdempotent(answer);
    }
  }

  /** The converse fails: a change of case or leading white space is right
      on an answer sheet and wrong against an explanation. */
  lemma {:induction false} GradersDiffer()
    ensures AnswerAccepts("Paris", "paris") && !ExplanationAccepts("Paris", "paris")
    ensures AnswerAccepts("Paris", " Paris") && !ExplanationAccepts("Paris", " Paris")
  {
    LowerParis();
    NoWhiteSpaceInParis();
    assert !ExplanationAccepts("Paris", " Paris") by {
      assert TrimEnd(" Paris") == " Paris";
    }
    assert Trim(Lower(" Paris")) == "paris" by {
      assert Lower(" Paris") == [' '] + "paris";
      assert TrimEnd([' '] + "paris") == [' '] + "paris";
      assert ([' '] + "paris")[1..] == "paris";
    }
  }

  lemma LowerParis()
    ensures Lower("Paris") == "paris" && Lower("paris") == "paris" && Lower(" Paris") == [' '] + "paris"
  {
  }

  lemma NoWhiteSpaceInParis()
    ensures TrimEnd("paris") == "paris" && TrimStart("paris") == "paris" && TrimEnd(" Paris") == " Paris"
  {
    assert !IsWhiteSpace('s') && !IsWhiteSpace('p');
  }

  /** A sheet is graded without the order guard of CreateNewDetail: grading
      the same question again for a result repeats its order 1. */
  lemma {:induction false} SheetsMayRepeatOrders()
    ensures var before := [ResultDetail(1, 7, 1, 3, "a", Wrong)];
      OrdersUniquePerResult(before) &&
      !OrdersUniquePerResult(before + DetailRows(7, 2, [GradedAnswer(3, "a", "b")]))
  {
    var after := [ResultDetail(1, 7, 1, 3, "a", Wrong)] + DetailRows(7, 2, [GradedAnswer(3, "a", "b")]);
    assert after[0].resultId == after[1].resultId && after[0].questionOrder == after[1].questionOrder;
  }
}
