/** The test catalogue: creating a test under a unique key, searching it,
    and the 40-question validation of a test's content. */
module Tests {
  import opened Common
  import opened Text
  import opened Schema

  /** The fields of a create request; `testSkill` has passed its
      `^(reading|listening)$` pattern and is kept as a `Skill`. */
  datatype TestRequest = TestRequest(testType: string, testSkill: Skill, name: string,
                                     monthEdition: int, yearEdition: int)

  /** The request model's attributes: `TestType` matches `^(general|academic)$`,
      `Name` is required (not empty or all white space), `MonthEdition` is in
      1..12 and `YearEdition` in 1..3000. */
  predicate TestRequestValid(req: TestRequest) {
    (req.testType == "general" || req.testType == "academic") &&
    !IsBlank(req.name) &&
    1 <= req.monthEdition <= 12 && 1 <= req.yearEdition <= 3000
  }

  /** The five columns IsDupplicated compares. */
  predicate SameKey(t: Test, req: TestRequest) {
    t.testType == req.testType && t.testSkill == req.testSkill && t.name == req.name &&
    t.monthEdition == req.monthEdition && t.yearEdition == req.yearEdition
  }

  function KeyOf(t: Test): TestRequest {
    TestRequest(t.testType, t.testSkill, t.name, t.monthEdition, t.yearEdition)
  }

  /** IsDupplicated: some stored test has the request's key. */
  predicate IsDuplicated(tests: seq<Test>, req: TestRequest): (b: bool)
    ensures b <==> exists t :: t in tests && KeyOf(t) == req
  {
    assert forall t :: SameKey(t, req) <==> KeyOf(t) == req;
    exists i :: 0 <= i < |tests| && SameKey(tests[i], req)
  }

  /** No two tests share (type, skill, name, month edition, year edition). */
  predicate TestKeysUnique(tests: seq<Test>) {
    forall i, j :: 0 <= i < j < |tests| ==> KeyOf(tests[i]) != KeyOf(tests[j])
  }

  /** The row CreateNewTest inserts; the database fills `user_completed_num`
      with its default 0. */
  function NewTest(req: TestRequest, id: int): (t: Test)
    ensures SameKey(t, req) && t.testId == id && t.userCompletedNum == Some(0)
  {
    Test(id, req.testType, req.testSkill, req.name, req.monthEdition, req.yearEdition, Some(0))
  }

  /** Adding a test whose key is not yet used keeps the keys unique. */
  lemma {:induction false} InsertKeepsKeysUnique(tests: seq<Test>, req: TestRequest, id: int)
    requires TestKeysUnique(tests) && !IsDuplicated(tests, req)
    ensures TestKeysUnique(tests + [NewTest(req, id)])
  {
    var after := tests + [NewTest(req, id)];
    forall i, j | 0 <= i < j < |after| ensures KeyOf(after[i]) != KeyOf(after[j]) {
      if j == |tests| {
        assert !SameKey(tests[i], req);
        assert KeyOf(after[j]) == req;
      } else {
        assert after[i] == tests[i] && after[j] == tests[j];
      }
    }
  }

  /** CreateNewTest. */
  method CreateNewTest(db: Db, req: TestRequest) returns (r: Response<Test>)
    modifies db`tests
    ensures !TestRequestValid(req) ==> r == BadRequest && db.tests == old(db.tests)
    ensures TestRequestValid(req) && IsDuplicated(old(db.tests), req) ==> r == BadRequest && db.tests == old(db.tests)
    ensures r.Ok? <==> TestRequestValid(req) && !IsDuplicated(old(db.tests), req)
    ensures r.Ok? ==>
      r.value == NewTest(req, NextId(old(db.tests), (t: Test) => t.testId)) &&
      SameKey(r.value, req) && r.value.userCompletedNum == Some(0) &&
      (forall i :: 0 <= i < |old(db.tests)| ==> old(db.tests)[i].testId < r.value.testId) &&
      db.tests == old(db.tests) + [r.value]
    ensures TestKeysUnique(old(db.tests)) ==> TestKeysUnique(db.tests)
  {
    if !TestRequestValid(req) {
      return BadRequest;
    }
    if exists i :: 0 <= i < |db.tests| && SameKey(db.tests[i], req) {
      return BadRequest;
    }
    var id := NextId(db.tests, (t: Test) => t.testId);
    var test := NewTest(req, id);
    if TestKeysUnique(db.tests) {
      InsertKeepsKeysUnique(db.tests, req, id);
    }
    db.tests := db.tests + [test];
    r := Ok(test);
  }

  /** The query filters of FindTestsMatch; `None` is an absent parameter. */
  datatype TestQuery = TestQuery(name: Option<string>, testType: Option<string>, testSkill: Option<string>,
                                 monthEdition: Option<int>, yearEdition: Option<int>)

  /** A test passes every filter that is present; the name filter is a
      prefix test on the lower-cased strings. */
  predicate TestMatches(q: TestQuery, t: Test) {
    (q.name.None? || StartsWith(Lower(t.name), Lower(q.name.value))) &&
    (q.testType.None? || q.testType.value == t.testType) &&
    (q.testSkill.None? || q.testSkill.value == SkillName(t.testSkill)) &&
    (q.monthEdition.None? || q.monthEdition.value == t.monthEdition) &&
    (q.yearEdition.None? || q.yearEdition.value == t.yearEdition)
  }

  /** FindTestsMatch: the matching tests in table order. */
  function FindTestsMatch(tests: seq<Test>, q: TestQuery): (r: seq<Test>)
    ensures forall t :: t in r <==> t in tests && TestMatches(q, t)
  {
    Filter(tests, (t: Test) => TestMatches(q, t))
  }

  /** With no parameter every test is returned, in table order. */
  lemma NoFilterReturnsAll(tests: seq<Test>)
    ensures FindTestsMatch(tests, TestQuery(None, None, None, None, None)) == tests
  {
    FilterKeepsAll(tests, (t: Test) => TestMatches(TestQuery(None, None, None, None, None), t));
  }

  /** The name filter ignores ASCII case on both sides. */
  lemma {:induction false} NameFilterIgnoresCase(t: Test, name: string)
    ensures TestMatches(TestQuery(Some(name), None, None, None, None), t) <==>
            TestMatches(TestQuery(Some(Lower(name)), None, None, None, None), t)
  {
    LowerIdempotent(name);
  }

  /** What ValidateTest answers. */
  datatype TestCheck = Valid | WrongCount(questionNum: int) | TestNotFound | SoundNotFound

  /** The 40 questions a complete test must hold. */
  const RequiredQuestions := 40

  /** `Tests.FindAsync(id)`. */
  function FindTest(tests: seq<Test>, id: int): (r: Option<Test>)
    ensures r.Some? ==> r.value in tests && r.value.testId == id
    ensures r.None? <==> forall j :: 0 <= j < |tests| ==> tests[j].testId != id
  {
    match Find(tests, (t: Test) => t.testId == id)
    case None => None
    case Some(i) => Some(tests[i])
  }

  /** A list counts for reading test `id` when its first reading section belongs to that test. */
  predicate InReadingTest(sections: seq<ReadingSection>, q: QuestionList, id: int) {
    var s := FirstReadingSection(sections, q);
    s.Some? && s.value.testId == id
  }

  /** A list counts for a listening test when its first listening section belongs to the test's sound. */
  predicate OnSound(sections: seq<ListeningSection>, q: QuestionList, soundId: int) {
    var s := FirstListeningSection(sections, q);
    s.Some? && s.value.soundId == soundId
  }

  /** The first sound recorded for a test. */
  function FirstSound(sounds: seq<Sound>, testId: int): (r: Option<Sound>)
    ensures r.Some? ==> r.value in sounds && r.value.testId == testId
    ensures r.None? <==> forall j :: 0 <= j < |sounds| ==> sounds[j].testId != testId
  {
    match Find(sounds, (s: Sound) => s.testId == testId)
    case None => None
    case Some(i) => Some(sounds[i])
  }

  /** The lists ValidateTest gathers into `qlists`. */
  function TestLists(lists: seq<QuestionList>, readingSections: seq<ReadingSection>,
                     listeningSections: seq<ListeningSection>, test: Test, sound: Option<Sound>): seq<QuestionList>
  {
    match test.testSkill
    case Reading => Filter(lists, (q: QuestionList) => InReadingTest(readingSections, q, test.testId))
    case Listening =>
      if sound.None? then []
      else Filter(lists, (q: QuestionList) => OnSound(listeningSections, q, sound.value.soundId))
  }

  /** The reading loop of ValidateTest: the lists whose first reading section belongs to test `id`. */
  method GatherReadingLists(lists: seq<QuestionList>, sections: seq<ReadingSection>, id: int)
    returns (qlists: seq<QuestionList>)
    ensures qlists == Filter(lists, (q: QuestionList) => InReadingTest(sections, q, id))
  {
    qlists := [];
    for i := 0 to |lists|
      invariant qlists == Filter(lists[..i], (q: QuestionList) => InReadingTest(sections, q, id))
    {
      assert lists[..i + 1][..i] == lists[..i];
      var section := FirstReadingSection(sections, lists[i]);
      if section.Some? && section.value.testId == id {
        qlists := qlists + [lists[i]];
      }
    }
    assert lists[..|lists|] == lists;
  }

  /** The listening loop of ValidateTest: the lists whose first listening section belongs to the sound. */
  method GatherListeningLists(lists: seq<QuestionList>, sections: seq<ListeningSection>, soundId: int)
    returns (qlists: seq<QuestionList>)
    ensures qlists == Filter(lists, (q: QuestionList) => OnSound(sections, q, soundId))
  {
    qlists := [];
    for i := 0 to |lists|
      invariant qlists == Filter(lists[..i], (q: QuestionList) => OnSound(sections, q, soundId))
    {
      assert lists[..i + 1][..i] == lists[..i];
      var section := FirstListeningSection(sections, lists[i]);
      if section.Some? && section.value.soundId == soundId {
        qlists := qlists + [lists[i]];
      }
    }
    assert lists[..|lists|] == lists;
  }

  /** The summing loop of ValidateTest. */
  method SumQuestionNum(qlists: seq<QuestionList>) returns (questionNum: int)
    ensures questionNum == SumQnum(qlists)
  {
    questionNum := 0;
    for i := 0 to |qlists|
      invariant questionNum == SumQnum(qlists[..i])
    {
      assert qlists[..i + 1][..i] == qlists[..i];
      questionNum := questionNum + qlists[i].qnum;
    }
    assert qlists[..|qlists|] == qlists;
  }

  /** ValidateTest. It reads the tables and changes none. */
  method ValidateTest(db: Db, id: int) returns (r: TestCheck)
    ensures FindTest(db.tests, id).None? ==> r == TestNotFound
    ensures (FindTest(db.tests, id).Some? && FindTest(db.tests, id).value.testSkill == Listening &&
             FirstSound(db.sounds, id).None?) ==> r == SoundNotFound
    ensures (FindTest(db.tests, id).Some? &&
             !(FindTest(db.tests, id).value.testSkill == Listening && FirstSound(db.sounds, id).None?)) ==>
      r == Valid || r.WrongCount?
    ensures r == Valid || r.WrongCount? ==>
      var n := SumQnum(TestLists(db.questionLists, db.readingSections, db.listeningSections,
                                 FindTest(db.tests, id).value, FirstSound(db.sounds, id)));
      FindTest(db.tests, id).Some? && (r == Valid <==> n == RequiredQuestions) &&
      (r.WrongCount? ==> r.questionNum == n)
  {
    var test := FindTest(db.tests, id);
    if test.None? {
      return TestNotFound;
    }
    var qlists: seq<QuestionList> := [];
    if test.value.testSkill == Reading {
      qlists := GatherReadingLists(db.questionLists, db.readingSections, id);
    }
    if test.value.testSkill == Listening {
      var sound := FirstSound(db.sounds, id);
      if sound.None? {
        return SoundNotFound;
      }
      qlists := GatherListeningLists(db.questionLists, db.listeningSections, sound.value.soundId);
    }
    var questionNum := SumQuestionNum(qlists);
    if questionNum == RequiredQuestions {
      return Valid;
    }
    r := WrongCount(questionNum);
  }
}
