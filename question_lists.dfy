/** QuestionListController: creating a question list linked to one section,
    the choice list of a matching list and the image of a diagram list
    (each at most one row per list, added or overwritten), listing the lists
    of a section, and changing a list's content. */
module QuestionLists {
  import opened Common
  import opened Text
  import opened Schema
  import opened RequestModels
  import opened UserTests

  datatype QuestionListRequest = QuestionListRequest(sectionId: int, sectionType: string,
                                                     questionListType: string, content: Option<string>)

  /** `[RegularExpression]` on SectionType and `[QuestionType]` on
      QuestionListType (each of which also rules out the blank strings
      `[Required]` rejects). */
  predicate QuestionListRequestValid(req: QuestionListRequest) {
    SectionTypeValid(req.sectionType) && QuestionType(Str(req.questionListType)) == Success
  }

  /** The value the `qlist_type` enum column stores: the declared member
      that equals the given text ignoring case. The action's response echoes
      the request's own spelling (such as "Matching"); the model returns the
      stored row, which holds this lower-cased member. */
  function StoredType(questionListType: string): string {
    Lower(questionListType)
  }

  lemma LowerKeepsTypes()
    ensures forall t :: t in QuestionListTypes ==> Lower(t) == t
  {
    forall t | t in QuestionListTypes ensures Lower(t) == t {
      LowerKeepsLowerCase(t);
    }
  }

  /** A valid request stores one of the five declared types. */
  lemma {:induction false} StoredTypeIsDeclared(req: QuestionListRequest)
    requires QuestionListRequestValid(req)
    ensures StoredType(req.questionListType) in QuestionListTypes
  {
    var t :| t in QuestionListTypes && EqualsIgnoreCase(t, req.questionListType);
    LowerKeepsTypes();
  }

  function FindQuestionList(lists: seq<QuestionList>, id: int): (r: Option<nat>)
    ensures r.Some? ==> r.value < |lists| && lists[r.value].qlistId == id
    ensures r.None? <==> forall j :: 0 <= j < |lists| ==> lists[j].qlistId != id
  {
    Find(lists, (l: QuestionList) => l.qlistId == id)
  }

  function NextListId(lists: seq<QuestionList>): (n: int)
    ensures forall j :: 0 <= j < |lists| ==> lists[j].qlistId < n
  {
    NextId(lists, (l: QuestionList) => l.qlistId)
  }

  /** Question lists are keyed by id. */
  predicate ListIdsUnique(lists: seq<QuestionList>) {
    forall i, j :: 0 <= i < j < |lists| ==> lists[i].qlistId != lists[j].qlistId
  }

  /** Whether a question belongs to the list, as a predicate value. */
  function InList(qlistId: int): Question -> bool {
    (q: Question) => q.qlistId == qlistId
  }

  /** Number of questions of a list. */
  function QuestionCount(questions: seq<Question>, qlistId: int): nat {
    CountWhere(questions, InList(qlistId))
  }

  /** Every list's `Qnum` is the number of its questions. */
  predicate QnumMatches(lists: seq<QuestionList>, questions: seq<Question>) {
    forall i :: 0 <= i < |lists| ==> lists[i].qnum == QuestionCount(questions, lists[i].qlistId)
  }

  /** Every question belongs to a stored list (the foreign key). */
  predicate QuestionsReferToLists(lists: seq<QuestionList>, questions: seq<Question>) {
    forall j :: 0 <= j < |questions| ==> FindQuestionList(lists, questions[j].qlistId).Some?
  }

  /** A list with a fresh id has no questions yet, so it starts with `Qnum` 0. */
  lemma NewListKeepsQnum(lists: seq<QuestionList>, questions: seq<Question>, l: QuestionList)
    requires QnumMatches(lists, questions) && QuestionsReferToLists(lists, questions)
    requires l.qlistId == NextListId(lists) && l.qnum == 0
    ensures QnumMatches(lists + [l], questions)
    ensures QuestionsReferToLists(lists + [l], questions)
  {
    assert QuestionCount(questions, l.qlistId) == 0 by {
      forall j | 0 <= j < |questions| ensures questions[j].qlistId != l.qlistId {
        var k := FindQuestionList(lists, questions[j].qlistId).value;
      }
    }
    var after := lists + [l];
    forall i | 0 <= i < |after| ensures after[i].qnum == QuestionCount(questions, after[i].qlistId) {
      if i < |lists| {
        assert after[i] == lists[i];
      }
    }
    forall j | 0 <= j < |questions| ensures FindQuestionList(after, questions[j].qlistId).Some? {
      var k := FindQuestionList(lists, questions[j].qlistId).value;
      assert after[k] == lists[k];
    }
  }

  /** QuestionListController.CreateNewQuestionList: the new list, with
      `Qnum` 0, is linked to exactly the named reading or listening section. */
  method CreateNewQuestionList(db: Db, req: QuestionListRequest) returns (r: Response<QuestionList>)
    modifies db`questionLists
    ensures !QuestionListRequestValid(req) ==> r == BadRequest
    ensures (QuestionListRequestValid(req) && req.sectionType == "reading" &&
             !HasReadingSection(db.readingSections, req.sectionId)) ==> r == NotFound
    ensures (QuestionListRequestValid(req) && req.sectionType == "listening" &&
             !HasListeningSection(db.listeningSections, req.sectionId)) ==> r == NotFound
    ensures !r.Ok? ==> db.questionLists == old(db.questionLists)
    ensures r.Ok? <==>
      QuestionListRequestValid(req) &&
      (req.sectionType == "reading" ==> HasReadingSection(db.readingSections, req.sectionId)) &&
      (req.sectionType == "listening" ==> HasListeningSection(db.listeningSections, req.sectionId))
    ensures r.Ok? ==>
      r.value == QuestionList(NextListId(old(db.questionLists)), StoredType(req.questionListType), req.content, 0,
                              if req.sectionType == "reading" then [req.sectionId] else [],
                              if req.sectionType == "listening" then [req.sectionId] else []) &&
      db.questionLists == old(db.questionLists) + [r.value]
    ensures QnumMatches(old(db.questionLists), db.questions) && QuestionsReferToLists(old(db.questionLists), db.questions) ==>
      QnumMatches(db.questionLists, db.questions) && QuestionsReferToLists(db.questionLists, db.questions)
    ensures ListIdsUnique(old(db.questionLists)) ==> ListIdsUnique(db.questionLists)
  {
    if !QuestionListRequestValid(req) {
      return BadRequest;
    }
    var rsections: seq<int> := [];
    var lsections: seq<int> := [];
    if req.sectionType == "reading" {
      if !HasReadingSection(db.readingSections, req.sectionId) {
        return NotFound;
      }
      rsections := [req.sectionId];
    }
    if req.sectionType == "listening" {
      if !HasListeningSection(db.listeningSections, req.sectionId) {
        return NotFound;
      }
      lsections := [req.sectionId];
    }
    var qlist := QuestionList(NextListId(db.questionLists), StoredType(req.questionListType), req.content, 0,
                              rsections, lsections);
    if QnumMatches(db.questionLists, db.questions) && QuestionsReferToLists(db.questionLists, db.questions) {
      NewListKeepsQnum(db.questionLists, db.questions, qlist);
    }
    if ListIdsUnique(db.questionLists) {
      NewListKeepsIdsUnique(db.questionLists, qlist);
    }
    db.questionLists := db.questionLists + [qlist];
    r := Ok(qlist);
  }

  /** A fresh id keeps list ids unique. */
  lemma NewListKeepsIdsUnique(lists: seq<QuestionList>, l: QuestionList)
    requires ListIdsUnique(lists) && l.qlistId == NextListId(lists)
    ensures ListIdsUnique(lists + [l])
  {
  }

  // ---------------------------------------------------------------------
  // Choice lists of matching lists and images of diagram lists.
  // ---------------------------------------------------------------------

  /** The choice row of a list (`FirstOrDefault(m => m.QlistId == id)`). */
  function ChoiceRow(rows: seq<MatchQuestionList>, qlistId: int): (r: Option<nat>)
    ensures r.Some? ==> r.value < |rows| && rows[r.value].qlistId == qlistId
    ensures r.Some? ==> forall j :: 0 <= j < r.value ==> rows[j].qlistId != qlistId
    ensures r.None? <==> forall j :: 0 <= j < |rows| ==> rows[j].qlistId != qlistId
  {
    Find(rows, (m: MatchQuestionList) => m.qlistId == qlistId)
  }

  /** QuestionListController.GetChoiceList. */
  function GetChoiceList(rows: seq<MatchQuestionList>, qlistId: int): (r: Response<string>)
    ensures r.Ok? || r == NotFound
    ensures r == NotFound <==> forall j :: 0 <= j < |rows| ==> rows[j].qlistId != qlistId
  {
    match ChoiceRow(rows, qlistId)
    case None => NotFound
    case Some(k) => Ok(rows[k].choiceList)
  }

  /** At most one choice row per list. */
  predicate OneChoicePerList(rows: seq<MatchQuestionList>) {
    forall i, j :: 0 <= i < j < |rows| ==> rows[i].qlistId != rows[j].qlistId
  }

  /** The upsert: overwrite the list's row, or add one with a fresh id. */
  function UpsertChoice(rows: seq<MatchQuestionList>, qlistId: int, choice: string): (r: seq<MatchQuestionList>)
    ensures |r| == |rows| || |r| == |rows| + 1
    ensures forall j :: 0 <= j < |rows| && rows[j].qlistId != qlistId ==> r[j] == rows[j]
  {
    match ChoiceRow(rows, qlistId)
    case None => rows + [MatchQuestionList(NextId(rows, (m: MatchQuestionList) => m.mqlistId), qlistId, choice)]
    case Some(k) => rows[k := rows[k].(choiceList := choice)]
  }

  /** After the upsert the list's choice list is the new one. */
  lemma UpsertChoiceSets(rows: seq<MatchQuestionList>, qlistId: int, choice: string)
    ensures GetChoiceList(UpsertChoice(rows, qlistId, choice), qlistId) == Ok(choice)
  {
    var after := UpsertChoice(rows, qlistId, choice);
    match ChoiceRow(rows, qlistId)
    case None =>
      assert forall j :: 0 <= j < |rows| ==> after[j] == rows[j];
      assert after[|rows|].qlistId == qlistId;
    case Some(k) =>
      assert forall j :: 0 <= j < k ==> after[j] == rows[j];
      assert after[k].qlistId == qlistId;
  }

  /** Repeating the upsert changes nothing more. */
  lemma UpsertChoiceIdempotent(rows: seq<MatchQuestionList>, qlistId: int, choice: string)
    ensures UpsertChoice(UpsertChoice(rows, qlistId, choice), qlistId, choice) == UpsertChoice(rows, qlistId, choice)
  {
    var after := UpsertChoice(rows, qlistId, choice);
    UpsertChoiceSets(rows, qlistId, choice);
    var k := ChoiceRow(after, qlistId).value;
    assert after[k].choiceList == choice;
    assert after[k := after[k].(choiceList := choice)] == after;
  }

  /** The upsert keeps one choice row per list. */
  lemma UpsertChoiceKeepsOnePerList(rows: seq<MatchQuestionList>, qlistId: int, choice: string)
    requires OneChoicePerList(rows)
    ensures OneChoicePerList(UpsertChoice(rows, qlistId, choice))
  {
  }

  /** QuestionListController.AddChoiceList: only a stored matching list gets a choice list. */
  method AddChoiceList(db: Db, id: int, choice: string) returns (r: Response<()>)
    modifies db`matchLists
    ensures FindQuestionList(db.questionLists, id).None? ==> r == NotFound
    ensures (FindQuestionList(db.questionLists, id).Some? &&
             db.questionLists[FindQuestionList(db.questionLists, id).value].qlistType != "matching") ==> r == BadRequest
    ensures r.Ok? <==> (FindQuestionList(db.questionLists, id).Some? &&
                        db.questionLists[FindQuestionList(db.questionLists, id).value].qlistType == "matching")
    ensures r.Ok? ==> db.matchLists == UpsertChoice(old(db.matchLists), id, choice)
    ensures !r.Ok? ==> db.matchLists == old(db.matchLists)
  {
    var k := FindQuestionList(db.questionLists, id);
    if k.None? {
      return NotFound;
    }
    if db.questionLists[k.value].qlistType != "matching" {
      return BadRequest;
    }
    db.matchLists := UpsertChoice(db.matchLists, id, choice);
    r := Ok(());
  }

  /** The diagram row of a list (`FirstOrDefault(d => d.QlistId == id)`). */
  function DiagramRow(rows: seq<DiagramQuestionList>, qlistId: int): (r: Option<nat>)
    ensures r.Some? ==> r.value < |rows| && rows[r.value].qlistId == qlistId
    ensures r.Some? ==> forall j :: 0 <= j < r.value ==> rows[j].qlistId != qlistId
    ensures r.None? <==> forall j :: 0 <= j < |rows| ==> rows[j].qlistId != qlistId
  {
    Find(rows, (d: DiagramQuestionList) => d.qlistId == qlistId)
  }

  /** QuestionListController.GetDiagramImage. */
  function GetDiagramImage(rows: seq<DiagramQuestionList>, qlistId: int): (r: Response<string>)
    ensures r.Ok? || r == NotFound
    ensures r == NotFound <==> forall j :: 0 <= j < |rows| ==> rows[j].qlistId != qlistId
  {
    match DiagramRow(rows, qlistId)
    case None => NotFound
    case Some(k) => Ok(rows[k].imageLink)
  }

  /** The upsert: overwrite the list's image link, or add a row with a fresh id. */
  function UpsertDiagram(rows: seq<DiagramQuestionList>, qlistId: int, link: string): (r: seq<DiagramQuestionList>)
    ensures |r| == |rows| || |r| == |rows| + 1
    ensures forall j :: 0 <= j < |rows| && rows[j].qlistId != qlistId ==> r[j] == rows[j]
  {
    match DiagramRow(rows, qlistId)
    case None => rows + [DiagramQuestionList(NextId(rows, (d: DiagramQuestionList) => d.dqlistId), qlistId, link)]
    case Some(k) => rows[k := rows[k].(imageLink := link)]
  }

  /** After the upsert the list's image is the new one. */
  lemma UpsertDiagramSets(rows: seq<DiagramQuestionList>, qlistId: int, link: string)
    ensures GetDiagramImage(UpsertDiagram(rows, qlistId, link), qlistId) == Ok(link)
  {
    var after := UpsertDiagram(rows, qlistId, link);
    match DiagramRow(rows, qlistId)
    case None =>
      assert forall j :: 0 <= j < |rows| ==> after[j] == rows[j];
      assert after[|rows|].qlistId == qlistId;
    case Some(k) =>
      assert forall j :: 0 <= j < k ==> after[j] == rows[j];
      assert after[k].qlistId == qlistId;
  }

  /** At most one image per list. */
  predicate OneDiagramPerList(rows: seq<DiagramQuestionList>) {
    forall i, j :: 0 <= i < j < |rows| ==> rows[i].qlistId != rows[j].qlistId
  }

  /** The upsert keeps one image per list. */
  lemma UpsertDiagramKeepsOnePerList(rows: seq<DiagramQuestionList>, qlistId: int, link: string)
    requires OneDiagramPerList(rows)
    ensures OneDiagramPerList(UpsertDiagram(rows, qlistId, link))
  {
  }

  /** QuestionListController.UploadDiagramImage, without the file work:
      `imageValid` is the image check, `link` the relative path the image
      is saved under and `origin` the request's scheme and host. Only a
      stored diagram list gets an image; the answer is its address. */
  method UploadDiagramImage(db: Db, id: int, imageValid: bool, link: string, origin: string) returns (r: Response<string>)
    modifies db`diagramLists
    ensures FindQuestionList(db.questionLists, id).None? ==> r == NotFound
    ensures (FindQuestionList(db.questionLists, id).Some? &&
             db.questionLists[FindQuestionList(db.questionLists, id).value].qlistType != "diagram") ==> r == BadRequest
    ensures r.Ok? <==> (FindQuestionList(db.questionLists, id).Some? &&
                        db.questionLists[FindQuestionList(db.questionLists, id).value].qlistType == "diagram" &&
                        imageValid)
    ensures r.Ok? ==> r.value == origin + link && db.diagramLists == UpsertDiagram(old(db.diagramLists), id, link)
    ensures (FindQuestionList(db.questionLists, id).Some? &&
             db.questionLists[FindQuestionList(db.questionLists, id).value].qlistType == "diagram" &&
             !imageValid) ==> r == BadRequest
    ensures !r.Ok? ==> r == NotFound || r == BadRequest
    ensures !r.Ok? ==> db.diagramLists == old(db.diagramLists)
  {
    var k := FindQuestionList(db.questionLists, id);
    if k.None? {
      return NotFound;
    }
    if db.questionLists[k.value].qlistType != "diagram" {
      return BadRequest;
    }
    if !imageValid {
      return BadRequest;
    }
    db.diagramLists := UpsertDiagram(db.diagramLists, id, link);
    r := Ok(origin + link);
  }

  // ---------------------------------------------------------------------
  // Listing and content update.
  // ---------------------------------------------------------------------

  /** A list belongs to a section of the kind when its first linked section
      of that kind is that section. */
  predicate OnSection(l: QuestionList, sectionType: string, sectionId: int) {
    if sectionType == "reading" then FirstReadingSectionId(l) == Some(sectionId)
    else if sectionType == "listening" then FirstListeningSectionId(l) == Some(sectionId)
    else false
  }

  /** Whether a list belongs to that section, as a predicate value. */
  function OnSectionBy(sectionType: string, sectionId: int): QuestionList -> bool {
    (l: QuestionList) => OnSection(l, sectionType, sectionId)
  }

  /** The lists of a section, in table order. */
  function SectionLists(lists: seq<QuestionList>, sectionType: string, sectionId: int): (r: seq<QuestionList>)
    ensures forall l :: l in r <==> l in lists && OnSection(l, sectionType, sectionId)
  {
    Filter(lists, OnSectionBy(sectionType, sectionId))
  }

  /** The `foreach` over the question lists. */
  method CollectSectionLists(lists: seq<QuestionList>, sectionType: string, sectionId: int)
    returns (found: seq<QuestionList>)
    ensures found == SectionLists(lists, sectionType, sectionId)
  {
    found := [];
    for i := 0 to |lists|
      invariant found == SectionLists(lists[..i], sectionType, sectionId)
    {
      assert lists[..i + 1][..i] == lists[..i];
      if OnSection(lists[i], sectionType, sectionId) {
        found := found + [lists[i]];
      }
    }
    assert lists[..|lists|] == lists;
  }

  /** QuestionListController.GetSectionQuestionList: both parameters are
      required; an unknown section type gives the empty list. */
  method GetSectionQuestionList(db: Db, sectionId: Option<int>, sectionType: Option<string>)
    returns (r: Response<seq<QuestionList>>)
    ensures sectionId.None? || sectionType.None? ==> r == BadRequest
    ensures sectionId.Some? && sectionType.Some? ==>
      r == Ok(SectionLists(db.questionLists, sectionType.value, sectionId.value))
  {
    if sectionId.None? || sectionType.None? {
      return BadRequest;
    }
    var found: seq<QuestionList> := [];
    if sectionType.value == "reading" || sectionType.value == "listening" {
      found := CollectSectionLists(db.questionLists, sectionType.value, sectionId.value);
    } else {
      FilterCountAgree(db.questionLists, OnSectionBy(sectionType.value, sectionId.value));
    }
    r := Ok(found);
  }

  /** A list is listed under the first section of each kind it is linked to, and only there. */
  lemma ListedUnderFirstSectionOnly(lists: seq<QuestionList>, l: QuestionList, sectionId: int)
    requires l in lists && l.rsections != []
    ensures l in SectionLists(lists, "reading", sectionId) <==> sectionId == l.rsections[0]
  {
  }

  /** QuestionListController.UpdateQuestionList: only the content of the list changes. */
  method UpdateQuestionList(db: Db, id: int, content: string) returns (r: Response<()>)
    modifies db`questionLists
    ensures FindQuestionList(old(db.questionLists), id).None? <==> r == NotFound
    ensures r == NotFound ==> db.questionLists == old(db.questionLists)
    ensures r != NotFound ==> r == Ok(())
    ensures r != NotFound ==>
      db.questionLists == old(db.questionLists)[FindQuestionList(old(db.questionLists), id).value :=
        old(db.questionLists)[FindQuestionList(old(db.questionLists), id).value].(content := Some(content))]
  {
    var k := FindQuestionList(db.questionLists, id);
    if k.None? {
      return NotFound;
    }
    db.questionLists := db.questionLists[k.value := db.questionLists[k.value].(content := Some(content))];
    r := Ok(());
  }

  /** Changing a list's content keeps every list's `Qnum` and links. */
  lemma ContentUpdateKeepsCounts(lists: seq<QuestionList>, questions: seq<Question>, k: nat, content: string)
    requires k < |lists| && QnumMatches(lists, questions)
    ensures QnumMatches(lists[k := lists[k].(content := Some(content))], questions)
    ensures forall i :: 0 <= i < |lists| ==>
      (lists[k := lists[k].(content := Some(content))][i].qnum == lists[i].qnum &&
       lists[k := lists[k].(content := Some(content))][i].rsections == lists[i].rsections &&
       lists[k := lists[k].(content := Some(content))][i].lsections == lists[i].lsections)
  {
  }
}
