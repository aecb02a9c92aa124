/** The user-test actions: assembling a reading or listening test from the
    question bank, listing its sections with their question totals, and
    deleting it together with everything that hangs off it. */
module UserTests {
  import opened Common
  import opened Schema
  import opened RequestModels
  import opened SectionMatcher
  import opened QuestionTotals

  /** `UserTests.FindAsync(id)`. */
  function FindUserTest(rows: seq<UserTest>, id: int): (r: Option<UserTest>)
    ensures r.Some? ==> r.value in rows && r.value.utestId == id
    ensures r.None? <==> forall j :: 0 <= j < |rows| ==> rows[j].utestId != id
  {
    match Find(rows, (t: UserTest) => t.utestId == id)
    case None => None
    case Some(i) => Some(rows[i])
  }

  /** Detail ids are the table's primary key. */
  predicate DetailIdsUnique(rows: seq<UserTestDetail>) {
    forall i, j :: 0 <= i < j < |rows| ==> rows[i].tdetailId != rows[j].tdetailId
  }

  /** Every selection the reading search can record for this request. */
  function ReadingSelections(lists: seq<QuestionList>, types: seq<string>): seq<seq<int>> {
    Selections(types, ReadingCandidates(lists, types), 0, {}, [])
  }

  /** `after` is `before` followed by one row per id of `sectionIds`, in
      order, each under user test `utestId`. */
  ghost predicate Appended(before: seq<UserTestDetail>, after: seq<UserTestDetail>, utestId: int, sectionIds: seq<int>) {
    |after| == |before| + |sectionIds| && after[..|before|] == before &&
    forall j :: |before| <= j < |after| ==>
      after[j].utestId == utestId && after[j].sectionId == sectionIds[j - |before|]
  }

  /** The `foreach` that adds one detail row per chosen section, each with a
      fresh key, all under user test `utestId`. */
  method AddTestDetails(db: Db, utestId: int, sectionIds: seq<int>)
    modifies db`userTestDetails
    ensures Appended(old(db.userTestDetails), db.userTestDetails, utestId, sectionIds)
    ensures DetailIdsUnique(old(db.userTestDetails)) ==> DetailIdsUnique(db.userTestDetails)
  {
    ghost var before := db.userTestDetails;
    for k := 0 to |sectionIds|
      invariant Appended(before, db.userTestDetails, utestId, sectionIds[..k])
      invariant DetailIdsUnique(before) ==> DetailIdsUnique(db.userTestDetails)
    {
      var id := NextId(db.userTestDetails, (d: UserTestDetail) => d.tdetailId);
      ghost var prev := db.userTestDetails;
      db.userTestDetails := db.userTestDetails + [UserTestDetail(id, utestId, sectionIds[k])];
      assert db.userTestDetails[..|prev|] == prev;
      assert db.userTestDetails[..|before|] == before;
      forall j | |before| <= j < |db.userTestDetails|
        ensures db.userTestDetails[j].utestId == utestId
        ensures db.userTestDetails[j].sectionId == sectionIds[..k + 1][j - |before|]
      {
        if j < |prev| {
          assert db.userTestDetails[j] == prev[j];
        }
      }
    }
    assert sectionIds[..|sectionIds|] == sectionIds;
  }

  /** CreateReadingTestDetail. `pick` stands for the random draw: the
      recorded selection at `pick % count` is used. */
  method CreateReadingTestDetail(db: Db, testId: int, types: seq<string>, pick: nat) returns (r: Response<seq<int>>)
    modifies db`userTestDetails
    ensures !TypesValid(types) ==> r == BadRequest
    ensures TypesValid(types) && FindUserTest(db.userTests, testId).None? ==> r == NotFound
    ensures (TypesValid(types) && FindUserTest(db.userTests, testId).Some? &&
             FindUserTest(db.userTests, testId).value.testSkill != Reading) ==> r == BadRequest
    ensures r.Ok? <==> (TypesValid(types) && FindUserTest(db.userTests, testId).Some? &&
                        FindUserTest(db.userTests, testId).value.testSkill == Reading &&
                        ReadingSelections(db.questionLists, types) != [])
    ensures r.Ok? ==>
      var all := ReadingSelections(db.questionLists, types);
      |all| > 0 && r.value == all[pick % |all|] && IsSelection(r.value, types, ReadingCandidates(db.questionLists, types))
    ensures r.Ok? ==> Appended(old(db.userTestDetails), db.userTestDetails, testId, r.value)
    ensures !r.Ok? ==> db.userTestDetails == old(db.userTestDetails)
    ensures DetailIdsUnique(old(db.userTestDetails)) ==> DetailIdsUnique(db.userTestDetails)
  {
    if ValidateList(MaxTypes, AllowedTypes, StringList(types)) != Success {
      return BadRequest;
    }
    var test := FindUserTest(db.userTests, testId);
    if test.None? {
      return NotFound;
    }
    if test.value.testSkill != Reading {
      return BadRequest;
    }
    var candidates := BuildReadingCandidates(db.questionLists, types);
    var search := new Search();
    search.FindAllSelectionsRecursively(types, candidates, 0);
    if |search.allResults| == 0 {
      return BadRequest;
    }
    var sectionIds := search.allResults[pick % |search.allResults|];
    SearchIsExact(types, candidates);
    assert sectionIds in search.allResults;
    AddTestDetails(db, testId, sectionIds);
    r := Ok(sectionIds);
  }

  /** What a listening request assembles from: the qualifying sounds. */
  function ListeningChoices(db: Db, types: seq<string>): seq<int>
    reads db
  {
    PossibleSounds(db.questionLists, db.listeningSections, types)
  }

  /** CreateListeningTestDetail. `pick` stands for the random draw: the
      qualifying sound at `pick % count` is used, and every listening
      section of that sound is assigned. */
  method CreateListeningTestDetail(db: Db, testId: int, types: seq<string>, pick: nat) returns (r: Response<seq<int>>)
    modifies db`userTestDetails
    ensures !TypesValid(types) ==> r == BadRequest
    ensures TypesValid(types) && FindUserTest(db.userTests, testId).None? ==> r == NotFound
    ensures (TypesValid(types) && FindUserTest(db.userTests, testId).Some? &&
             FindUserTest(db.userTests, testId).value.testSkill != Listening) ==> r == BadRequest
    ensures r.Ok? <==> (TypesValid(types) && FindUserTest(db.userTests, testId).Some? &&
                        FindUserTest(db.userTests, testId).value.testSkill == Listening &&
                        ListeningChoices(db, types) != [])
    ensures r.Ok? ==>
      var sounds := ListeningChoices(db, types);
      |sounds| > 0 && r.value == SoundSectionIds(db.listeningSections, sounds[pick % |sounds|])
    ensures r.Ok? ==> Appended(old(db.userTestDetails), db.userTestDetails, testId, r.value)
    ensures !r.Ok? ==> db.userTestDetails == old(db.userTestDetails)
    ensures DetailIdsUnique(old(db.userTestDetails)) ==> DetailIdsUnique(db.userTestDetails)
  {
    if ValidateList(MaxTypes, AllowedTypes, StringList(types)) != Success {
      return BadRequest;
    }
    var test := FindUserTest(db.userTests, testId);
    if test.None? {
      return NotFound;
    }
    if test.value.testSkill != Listening {
      return BadRequest;
    }
    var order, candidates := BuildListeningCandidates(db.questionLists, db.listeningSections, types);
    var possible := SelectQualifyingSounds(types, order, candidates);
    PassingCandidatesArePossible(db.questionLists, db.listeningSections, types, candidates);
    if |possible| == 0 {
      return BadRequest;
    }
    var sectionIds := SoundSectionIds(db.listeningSections, possible[pick % |possible|]);
    AddTestDetails(db, testId, sectionIds);
    r := Ok(sectionIds);
  }

  /** The reading selections are exactly the vectors that give each
      requested type, position by position, the first reading section of a
      list of that type, with no section used twice. */
  lemma ReadingSelectionsExact(lists: seq<QuestionList>, types: seq<string>, v: seq<int>)
    ensures v in ReadingSelections(lists, types) <==>
      |v| == |types| && Distinct(v) &&
      forall i :: 0 <= i < |v| ==>
        exists j :: 0 <= j < |lists| && lists[j].qlistType == types[i] && FirstReadingSectionId(lists[j]) == Some(v[i])
  {
    var candidates := ReadingCandidates(lists, types);
    assert v in ReadingSelections(lists, types) <==> IsSelection(v, types, candidates) by {
      SearchIsExact(types, candidates);
    }
    forall i | 0 <= i < |v| && i < |types| {
      ReadingCandidatesMembers(lists, types, types[i], v[i]);
    }
  }

  /** Ids of the sections a user test's detail rows point to, in table order. */
  function DetailSectionIds(details: seq<UserTestDetail>, utestId: int): seq<int> {
    if details == [] then []
    else
      var d := details[|details| - 1];
      DetailSectionIds(details[..|details| - 1], utestId) + (if d.utestId == utestId then [d.sectionId] else [])
  }

  predicate HasReadingSection(sections: seq<ReadingSection>, id: int) {
    exists j :: 0 <= j < |sections| && sections[j].rsectionId == id
  }

  predicate HasListeningSection(sections: seq<ListeningSection>, id: int) {
    exists j :: 0 <= j < |sections| && sections[j].lsectionId == id
  }

  /** The detail section ids that resolve to a section of the given kind. */
  function ExistingSectionIds(readingSections: seq<ReadingSection>, listeningSections: seq<ListeningSection>,
                              ids: seq<int>, kind: Skill): seq<int>
  {
    match kind
    case Reading => Filter(ids, (x: int) => HasReadingSection(readingSections, x))
    case Listening => Filter(ids, (x: int) => HasListeningSection(listeningSections, x))
  }

  /** The loop that looks each detail's section up (`FindAsync`) and keeps the ones found. */
  method ResolveSections(readingSections: seq<ReadingSection>, listeningSections: seq<ListeningSection>,
                         ids: seq<int>, kind: Skill) returns (found: seq<int>)
    ensures found == ExistingSectionIds(readingSections, listeningSections, ids, kind)
  {
    found := [];
    for k := 0 to |ids|
      invariant found == ExistingSectionIds(readingSections, listeningSections, ids[..k], kind)
    {
      assert ids[..k + 1][..k] == ids[..k];
      var present;
      if kind == Reading {
        present := Find(readingSections, (s: ReadingSection) => s.rsectionId == ids[k]).Some?;
        assert present <==> HasReadingSection(readingSections, ids[k]);
      } else {
        present := Find(listeningSections, (s: ListeningSection) => s.lsectionId == ids[k]).Some?;
        assert present <==> HasListeningSection(listeningSections, ids[k]);
      }
      if present {
        found := found + [ids[k]];
      }
    }
    assert ids[..|ids|] == ids;
  }

  /** UserTestController.FindAllTestSections: the test's sections in detail
      order. A reading test's sections carry their question totals. A
      listening test's sections come back without them: the loop writes its
      totals into the objects of a lazy `Select`, and the response enumerates
      that `Select` again, building fresh objects. */
  method FindAllTestSections(db: Db, id: int) returns (r: Response<seq<SectionSummary>>)
    ensures FindUserTest(db.userTests, id).None? ==> r == NotFound
    ensures FindUserTest(db.userTests, id).Some? && FindUserTest(db.userTests, id).value.testSkill == Reading ==>
      var ids := DetailSectionIds(db.userTestDetails, id);
      r == Ok(Summaries(db.questionLists, ExistingSectionIds(db.readingSections, db.listeningSections, ids, Reading), Reading))
    ensures FindUserTest(db.userTests, id).Some? && FindUserTest(db.userTests, id).value.testSkill == Listening ==>
      var ids := DetailSectionIds(db.userTestDetails, id);
      r == Ok(Untotalled(ExistingSectionIds(db.readingSections, db.listeningSections, ids, Listening)))
  {
    var test := FindUserTest(db.userTests, id);
    if test.None? {
      return NotFound;
    }
    var sectionIds := DetailSectionIds(db.userTestDetails, id);
    var found := ResolveSections(db.readingSections, db.listeningSections, sectionIds, test.value.testSkill);
    if test.value.testSkill == Reading {
      var summaries := ComputeSummaries(db.questionLists, found, Reading);
      r := Ok(summaries);
    } else {
      r := Ok(Untotalled(found));
    }
  }

  /** The listening listing names the same sections as the totalled one,
      with every total 0 in place of the sum of the linked lists' `Qnum`. */
  lemma ListeningTotalsLost(lists: seq<QuestionList>, ids: seq<int>)
    ensures |Untotalled(ids)| == |Summaries(lists, ids, Listening)|
    ensures forall i :: 0 <= i < |ids| ==>
      Untotalled(ids)[i].sectionId == Summaries(lists, ids, Listening)[i].sectionId &&
      Untotalled(ids)[i].questionNum == 0 &&
      Summaries(lists, ids, Listening)[i].questionNum ==
        SumQnum(Filter(lists, (q: QuestionList) => LinkedFirst(q, Listening, ids[i])))
  {
    forall i | 0 <= i < |ids|
      ensures Summaries(lists, ids, Listening)[i].questionNum ==
        SumQnum(Filter(lists, (q: QuestionList) => LinkedFirst(q, Listening, ids[i])))
    {
      TotalIsSumOfLinked(lists, ids[i], Listening);
    }
  }

  /** A listening section with one linked list of three questions is listed
      with total 0, where the same listing for reading would report 3. */
  lemma ListeningTotalsLostExample()
    ensures var q := QuestionList(1, "matching", None, 3, [], [5]);
      Untotalled([5]) != Summaries([q], [5], Listening) &&
      Summaries([q], [5], Listening)[0].questionNum == 3
  {
    var q := QuestionList(1, "matching", None, 3, [], [5]);
    assert [q][..0] == [];
    assert Total([q], 5, Listening) == 3;
    assert Summaries([q], [5], Listening)[0].questionNum == 3;
    assert Untotalled([5])[0].questionNum == 0;
  }

  /** Ids of the private results recorded against a test id. */
  function PrivateResultIds(results: seq<Result>, testId: int): seq<int> {
    if results == [] then []
    else
      var res := results[|results| - 1];
      PrivateResultIds(results[..|results| - 1], testId) +
      (if res.testAccess == Private && res.testId == testId then [res.resultId] else [])
  }

  lemma {:induction false} PrivateResultIdsMembers(results: seq<Result>, testId: int, x: int)
    ensures x in PrivateResultIds(results, testId) <==>
      exists res :: res in results && res.testAccess == Private && res.testId == testId && res.resultId == x
  {
    if results != [] {
      var n := |results| - 1;
      PrivateResultIdsMembers(results[..n], testId, x);
      assert results == results[..n] + [results[n]];
    }
  }

  /** DeleteUserTest: the test row, its detail rows, the private results
      recorded against its id (whoever made them) and those results' detail
      rows go; nothing else does. */
  method DeleteUserTest(db: Db, id: int) returns (r: Response<()>)
    modifies db`userTests, db`userTestDetails, db`results, db`resultDetails
    ensures FindUserTest(old(db.userTests), id).None? ==>
      r == NotFound && db.userTests == old(db.userTests) && db.userTestDetails == old(db.userTestDetails) &&
      db.results == old(db.results) && db.resultDetails == old(db.resultDetails)
    ensures FindUserTest(old(db.userTests), id).Some? ==>
      r == Ok(()) &&
      (var i := Find(old(db.userTests), (t: UserTest) => t.utestId == id).value;
       db.userTests == old(db.userTests)[..i] + old(db.userTests)[i + 1..]) &&
      db.userTestDetails == Filter(old(db.userTestDetails), (d: UserTestDetail) => d.utestId != id) &&
      db.results == Filter(old(db.results), (res: Result) => !(res.testAccess == Private && res.testId == id)) &&
      db.resultDetails == Filter(old(db.resultDetails),
        (d: ResultDetail) => d.resultId !in PrivateResultIds(old(db.results), id))
  {
    var found := Find(db.userTests, (t: UserTest) => t.utestId == id);
    if found.None? {
      return NotFound;
    }
    var resultIds := PrivateResultIds(db.results, id);
    db.resultDetails := Filter(db.resultDetails, (d: ResultDetail) => d.resultId !in resultIds);
    db.results := Filter(db.results, (res: Result) => !(res.testAccess == Private && res.testId == id));
    db.userTestDetails := Filter(db.userTestDetails, (d: UserTestDetail) => d.utestId != id);
    db.userTests := db.userTests[..found.value] + db.userTests[found.value + 1..];
    r := Ok(());
  }

  /** After a delete no detail row points at the test and no private result
      is recorded against it; public results with the same test id stay,
      and so does every detail row of a result that stays. */
  lemma DeleteLeavesNoOrphans(details: seq<UserTestDetail>, results: seq<Result>, resultDetails: seq<ResultDetail>, id: int)
    ensures forall d :: d in Filter(details, (d: UserTestDetail) => d.utestId != id) ==> d.utestId != id
    ensures forall d :: d in details && d.utestId != id ==> d in Filter(details, (d: UserTestDetail) => d.utestId != id)
    ensures forall res :: res in results && res.testAccess == Public ==>
      res in Filter(results, (res: Result) => !(res.testAccess == Private && res.testId == id))
    ensures forall d :: d in resultDetails ==>
      (d in Filter(resultDetails, (d: ResultDetail) => d.resultId !in PrivateResultIds(results, id)) <==>
       forall res :: res in results && res.resultId == d.resultId ==> !(res.testAccess == Private && res.testId == id))
  {
    forall d | d in resultDetails {
      PrivateResultIdsMembers(results, id, d.resultId);
    }
  }
}
