/** The rows of the database tables that the controllers read and write, and
    the database itself as one object whose tables the actions update.

    Only the columns the modelled actions look at are kept. Many-to-many
    links between question lists and sections are kept on the question list
    as the ordered sequence of linked section ids; `FirstOrDefault()` over the
    loaded navigation collection is the head of that sequence. */
module Schema {
  import opened Common

  /** Column `test_skill`: enum('reading','listening'). */
  datatype Skill = Reading | Listening

  /** Column `test_access`: enum('public','private'). */
  datatype Access = Public | Private

  /** Column `question_state`: enum('right','wrong'). */
  datatype QuestionState = Right | Wrong

  /** A `DateTime`, abstracted to what the statistics look at: the calendar
      date and the weekday of the first day of its month (Sunday = 0). */
  datatype Date = Date(year: int, month: int, day: int, firstWeekday: int)

  predicate WellFormedDate(d: Date) {
    1 <= d.month <= 12 && 1 <= d.day <= 31 && 0 <= d.firstWeekday <= 6
  }

  function SkillName(s: Skill): string {
    match s
    case Reading => "reading"
    case Listening => "listening"
  }

  function AccessName(a: Access): string {
    match a
    case Public => "public"
    case Private => "private"
  }

  datatype Test = Test(testId: int, testType: string, testSkill: Skill, name: string,
                       monthEdition: int, yearEdition: int, userCompletedNum: Option<int>)

  datatype UserTest = UserTest(utestId: int, accountId: int, name: string, testType: string,
                               testSkill: Skill)

  datatype UserTestDetail = UserTestDetail(tdetailId: int, utestId: int, sectionId: int)

  datatype ReadingSection = ReadingSection(rsectionId: int, title: string, content: string, testId: int)

  datatype Sound = Sound(soundId: int, testId: int)

  /** `timeStamp` is a time of day in seconds. */
  datatype ListeningSection = ListeningSection(lsectionId: int, sectionOrder: int, timeStamp: int,
                                               transcript: Option<string>, soundId: int)

  datatype QuestionList = QuestionList(qlistId: int, qlistType: string, content: Option<string>,
                                       qnum: int, rsections: seq<int>, lsections: seq<int>)

  datatype Question = Question(questionId: int, qlistId: int, content: Option<string>,
                               choiceList: Option<string>, answer: string)

  datatype Explanation = Explanation(exId: int, content: string, questionId: int)

  datatype MatchQuestionList = MatchQuestionList(mqlistId: int, qlistId: int, choiceList: string)

  datatype DiagramQuestionList = DiagramQuestionList(dqlistId: int, qlistId: int, imageLink: string)

  /** `completeTime` is a time of day in seconds. */
  datatype Result = Result(resultId: int, score: int, accountId: int, testId: int,
                           testAccess: Access, dateMake: Date, completeTime: int)

  datatype ResultDetail = ResultDetail(detailId: int, resultId: int, questionOrder: int,
                                       questionId: int, userAnswer: string, questionState: QuestionState)

  /** The database context: one field per table. Rows keep their table order,
      which is the order a query enumerates them in. `constants` is the
      `Constant` table (name to its decimal(10,2) value). Accounts are known
      by id only. */
  class Db {
    var accounts: set<int>
    var constants: map<string, real>
    var tests: seq<Test>
    var userTests: seq<UserTest>
    var userTestDetails: seq<UserTestDetail>
    var readingSections: seq<ReadingSection>
    var sounds: seq<Sound>
    var listeningSections: seq<ListeningSection>
    var questionLists: seq<QuestionList>
    var questions: seq<Question>
    var explanations: seq<Explanation>
    var matchLists: seq<MatchQuestionList>
    var diagramLists: seq<DiagramQuestionList>
    var results: seq<Result>
    var resultDetails: seq<ResultDetail>

    constructor (accounts: set<int>, constants: map<string, real>)
      ensures this.accounts == accounts && this.constants == constants
      ensures tests == [] && userTests == [] && userTestDetails == []
      ensures readingSections == [] && sounds == [] && listeningSections == []
      ensures questionLists == [] && questions == [] && explanations == []
      ensures matchLists == [] && diagramLists == [] && results == [] && resultDetails == []
    {
      this.accounts, this.constants := accounts, constants;
      tests, userTests, userTestDetails := [], [], [];
      readingSections, sounds, listeningSections := [], [], [];
      questionLists, questions, explanations := [], [], [];
      matchLists, diagramLists, results, resultDetails := [], [], [], [];
    }
  }

  /** The first reading section linked to a question list, by id (`Rsections.FirstOrDefault()`).
      Some code paths read this id straight from the link; others (the
      `...Section` variants below) look the section up in its table. The join
      table's foreign keys make every link resolve, so the two agree on every
      database state; they part only for a dangling link, which the model's
      tables can hold but the database cannot. */
  function FirstReadingSectionId(q: QuestionList): Option<int> {
    if q.rsections == [] then None else Some(q.rsections[0])
  }

  /** The first listening section linked to a question list, by id (`Lsections.FirstOrDefault()`). */
  function FirstListeningSectionId(q: QuestionList): Option<int> {
    if q.lsections == [] then None else Some(q.lsections[0])
  }

  /** The first linked reading section itself, looked up in the table. */
  function FirstReadingSection(sections: seq<ReadingSection>, q: QuestionList): (r: Option<ReadingSection>)
    ensures r.Some? ==> r.value in sections && q.rsections != [] && r.value.rsectionId == q.rsections[0]
  {
    if q.rsections == [] then None
    else match Find(sections, (s: ReadingSection) => s.rsectionId == q.rsections[0])
      case None => None
      case Some(i) => Some(sections[i])
  }

  /** The first linked listening section itself, looked up in the table. */
  function FirstListeningSection(sections: seq<ListeningSection>, q: QuestionList): (r: Option<ListeningSection>)
    ensures r.Some? ==> r.value in sections && q.lsections != [] && r.value.lsectionId == q.lsections[0]
  {
    if q.lsections == [] then None
    else match Find(sections, (s: ListeningSection) => s.lsectionId == q.lsections[0])
      case None => None
      case Some(i) => Some(sections[i])
  }

  /** Sum of `Qnum` over a sequence of question lists. */
  function SumQnum(lists: seq<QuestionList>): int {
    if lists == [] then 0 else SumQnum(lists[..|lists| - 1]) + lists[|lists| - 1].qnum
  }

  lemma {:induction false} SumQnumAppend(a: seq<QuestionList>, b: seq<QuestionList>)
    ensures SumQnum(a + b) == SumQnum(a) + SumQnum(b)
    decreases |b|
  {
    if b != [] {
      assert (a + b)[..|a + b| - 1] == a + b[..|b| - 1];
      SumQnumAppend(a, b[..|b| - 1]);
    } else {
      assert a + b == a;
    }
  }
}
