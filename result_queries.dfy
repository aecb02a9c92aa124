/** The read-only queries of ResultController: the detail rows of one result
    in question order, and the results of an account that belong to the
    tests a search matches. */
module ResultQueries {
  import opened Common
  import opened Text
  import opened Schema
  import opened Tests

  // ---------------------------------------------------------------------
  // GetAllDetails: `Where(ResultId == id)` then `OrderBy(QuestionOrder)`.
  // ---------------------------------------------------------------------

  predicate SortedByOrder(s: seq<ResultDetail>) {
    forall i, j :: 0 <= i < j < |s| ==> s[i].questionOrder <= s[j].questionOrder
  }

  /** The rows with question order `k`, in their order in `s`. */
  function KeyRows(s: seq<ResultDetail>, k: int): seq<ResultDetail> {
    if s == [] then []
    else (if s[0].questionOrder == k then [s[0]] else []) + KeyRows(s[1..], k)
  }

  lemma {:induction false} KeyRowsConcat(a: seq<ResultDetail>, b: seq<ResultDetail>, k: int)
    ensures KeyRows(a + b, k) == KeyRows(a, k) + KeyRows(b, k)
  {
    if a == [] {
      assert a + b == b;
    } else {
      var h := if a[0].questionOrder == k then [a[0]] else [];
      assert (a + b)[0] == a[0];
      assert (a + b)[1..] == a[1..] + b;
      assert KeyRows(a + b, k) == h + KeyRows(a[1..] + b, k);
      KeyRowsConcat(a[1..], b, k);
      assert KeyRows(a, k) == h + KeyRows(a[1..], k);
      assert h + (KeyRows(a[1..], k) + KeyRows(b, k)) == (h + KeyRows(a[1..], k)) + KeyRows(b, k);
    }
  }

  /** The detail rows of result `id`, in table order. */
  function ResultRows(details: seq<ResultDetail>, id: int): (r: seq<ResultDetail>)
    ensures forall x :: x in r <==> x in details && x.resultId == id
  {
    Filter(details, (x: ResultDetail) => x.resultId == id)
  }

  /** Places `d` after every row whose order is not larger than its own. */
  function InsertByOrder(s: seq<ResultDetail>, d: ResultDetail): seq<ResultDetail> {
    if s == [] then [d]
    else if d.questionOrder < s[0].questionOrder then [d] + s
    else [s[0]] + InsertByOrder(s[1..], d)
  }

  /** LINQ `OrderBy(QuestionOrder)`: a stable sort by question order. */
  function SortByOrder(s: seq<ResultDetail>): seq<ResultDetail> {
    if s == [] then []
    else InsertByOrder(SortByOrder(s[..|s| - 1]), s[|s| - 1])
  }

  /** Inserting adds exactly `d`. */
  lemma {:induction false} InsertAddsOne(s: seq<ResultDetail>, d: ResultDetail)
    ensures multiset(InsertByOrder(s, d)) == multiset(s) + multiset{d}
  {
    if s != [] && d.questionOrder >= s[0].questionOrder {
      InsertAddsOne(s[1..], d);
      assert s == [s[0]] + s[1..];
    }
  }

  /** The sort is a permutation. */
  lemma {:induction false} SortPermutes(s: seq<ResultDetail>)
    ensures multiset(SortByOrder(s)) == multiset(s)
  {
    if s != [] {
      var n := |s| - 1;
      var sorted := SortByOrder(s[..n]);
      assert multiset(SortByOrder(s)) == multiset(sorted) + multiset{s[n]} by {
        InsertAddsOne(sorted, s[n]);
      }
      assert multiset(sorted) == multiset(s[..n]) by {
        SortPermutes(s[..n]);
      }
      assert multiset(s) == multiset(s[..n]) + multiset{s[n]} by {
        assert s == s[..n] + [s[n]];
      }
    }
  }

  /** GetAllDetails: the rows of result `id` sorted by question order. */
  function GetAllDetails(details: seq<ResultDetail>, id: int): (r: seq<ResultDetail>)
    ensures SortedByOrder(r)
    ensures multiset(r) == multiset(ResultRows(details, id))
  {
    SortPermutes(ResultRows(details, id));
    SortIsSorted(ResultRows(details, id));
    SortByOrder(ResultRows(details, id))
  }

  /** Inserting keeps every row at or above a common lower bound. */
  lemma {:induction false} InsertKeepsBound(s: seq<ResultDetail>, d: ResultDetail, b: int)
    requires forall i :: 0 <= i < |s| ==> b <= s[i].questionOrder
    requires b <= d.questionOrder
    ensures forall i :: 0 <= i < |InsertByOrder(s, d)| ==> b <= InsertByOrder(s, d)[i].questionOrder
    decreases |s|
  {
    if s != [] && d.questionOrder >= s[0].questionOrder {
      InsertKeepsBound(s[1..], d, b);
    }
  }

  lemma {:induction false} InsertKeepsSorted(s: seq<ResultDetail>, d: ResultDetail)
    requires SortedByOrder(s)
    ensures SortedByOrder(InsertByOrder(s, d))
    decreases |s|
  {
    if s != [] && d.questionOrder >= s[0].questionOrder {
      InsertKeepsSorted(s[1..], d);
      var t := InsertByOrder(s[1..], d);
      InsertKeepsBound(s[1..], d, s[0].questionOrder);
      assert InsertByOrder(s, d) == [s[0]] + t;
    }
  }

  lemma {:induction false} KeyRowsNone(s: seq<ResultDetail>, k: int)
    requires forall i :: 0 <= i < |s| ==> s[i].questionOrder > k
    ensures KeyRows(s, k) == []
  {
    if s != [] {
      KeyRowsNone(s[1..], k);
    }
  }

  /** Inserting into a sorted sequence adds `d` last among the rows of its
      own order and leaves the rows of every other order as they were. */
  lemma {:induction false} InsertKeyRows(s: seq<ResultDetail>, d: ResultDetail, k: int)
    requires SortedByOrder(s)
    ensures KeyRows(InsertByOrder(s, d), k) == KeyRows(s, k) + (if d.questionOrder == k then [d] else [])
    decreases |s|
  {
    if s == [] {
    } else if d.questionOrder < s[0].questionOrder {
      if d.questionOrder == k {
        KeyRowsNone(s, k);
      }
    } else {
      var t := InsertByOrder(s[1..], d);
      InsertKeyRows(s[1..], d, k);
      assert InsertByOrder(s, d) == [s[0]] + t;
      assert ([s[0]] + t)[1..] == t;
    }
  }

  lemma {:induction false} SortIsSorted(s: seq<ResultDetail>)
    ensures SortedByOrder(SortByOrder(s))
  {
    if s != [] {
      SortIsSorted(s[..|s| - 1]);
      InsertKeepsSorted(SortByOrder(s[..|s| - 1]), s[|s| - 1]);
    }
  }

  /** The sort is stable: the rows of each question order keep their
      relative order. */
  lemma {:induction false} SortIsStable(s: seq<ResultDetail>, k: int)
    ensures KeyRows(SortByOrder(s), k) == KeyRows(s, k)
  {
    if s != [] {
      var n := |s| - 1;
      var sorted := SortByOrder(s[..n]);
      var e := if s[n].questionOrder == k then [s[n]] else [];
      assert KeyRows(sorted, k) == KeyRows(s[..n], k) by {
        SortIsStable(s[..n], k);
      }
      assert KeyRows(InsertByOrder(sorted, s[n]), k) == KeyRows(sorted, k) + e by {
        SortIsSorted(s[..n]);
        InsertKeyRows(sorted, s[n], k);
      }
      assert KeyRows(s, k) == KeyRows(s[..n], k) + e by {
        KeyRowsConcat(s[..n], [s[n]], k);
        assert s[..n] + [s[n]] == s;
      }
    }
  }

  /** GetAllDetails returns exactly the rows of the result, each as often
      as it is stored, sorted by question order, and rows of the same order
      in table order. */
  lemma GetAllDetailsCorrect(details: seq<ResultDetail>, id: int, k: int)
    ensures forall x :: x in GetAllDetails(details, id) <==> x in details && x.resultId == id
    ensures SortedByOrder(GetAllDetails(details, id))
    ensures multiset(GetAllDetails(details, id)) == multiset(ResultRows(details, id))
    ensures KeyRows(GetAllDetails(details, id), k) == KeyRows(ResultRows(details, id), k)
  {
    var r := GetAllDetails(details, id);
    SortPermutes(ResultRows(details, id));
    forall x ensures x in r <==> x in ResultRows(details, id) {
      assert x in r <==> x in multiset(r);
    }
    SortIsSorted(ResultRows(details, id));
    SortIsStable(ResultRows(details, id), k);
  }

  // ---------------------------------------------------------------------
  // GetResultsMatch.
  // ---------------------------------------------------------------------

  /** The query-string parameters; each one may be absent. */
  datatype ResultQuery = ResultQuery(testName: Option<string>, testAccess: Option<string>,
                                     testType: Option<string>, testSkill: Option<string>,
                                     accountId: Option<int>)

  /** The public tests are filtered by name prefix, type and skill only. */
  function PublicQuery(q: ResultQuery): TestQuery {
    TestQuery(q.testName, q.testType, q.testSkill, None, None)
  }

  /** The private tests are filtered the same way and must belong to the account. */
  predicate UserTestMatches(q: ResultQuery, accountId: int, u: UserTest) {
    (q.testName.None? || StartsWith(Lower(u.name), Lower(q.testName.value))) &&
    (q.testType.None? || q.testType.value == u.testType) &&
    (q.testSkill.None? || q.testSkill.value == SkillName(u.testSkill)) &&
    accountId == u.accountId
  }

  /** Ids of the matching public tests, in table order. */
  function MatchingTestIds(tests: seq<Test>, q: ResultQuery): (ids: seq<int>)
    ensures |ids| <= |tests|
  {
    if tests == [] then []
    else
      var t := tests[|tests| - 1];
      MatchingTestIds(tests[..|tests| - 1], q) + (if TestMatches(PublicQuery(q), t) then [t.testId] else [])
  }

  /** Ids of the account's matching private tests, in table order. */
  function MatchingUserTestIds(userTests: seq<UserTest>, q: ResultQuery, accountId: int): (ids: seq<int>)
    ensures |ids| <= |userTests|
  {
    if userTests == [] then []
    else
      var u := userTests[|userTests| - 1];
      MatchingUserTestIds(userTests[..|userTests| - 1], q, accountId) +
        (if UserTestMatches(q, accountId, u) then [u.utestId] else [])
  }

  predicate Owns(r: Result, testId: int, access: Access, accountId: int) {
    r.testId == testId && r.testAccess == access && r.accountId == accountId
  }

  /** The first result of the account for that test and access, in table order. */
  function FirstResult(results: seq<Result>, testId: int, access: Access, accountId: int): (r: Option<Result>)
    ensures r.Some? ==> r.value in results && Owns(r.value, testId, access, accountId)
    ensures r.None? <==> forall j :: 0 <= j < |results| ==> !Owns(results[j], testId, access, accountId)
  {
    match Find(results, (x: Result) => Owns(x, testId, access, accountId))
    case None => None
    case Some(i) => Some(results[i])
  }

  /** For each id in turn, its first result when there is one. */
  function FirstResults(results: seq<Result>, ids: seq<int>, access: Access, accountId: int): seq<Result> {
    if ids == [] then []
    else
      FirstResults(results, ids[..|ids| - 1], access, accountId) +
        (match FirstResult(results, ids[|ids| - 1], access, accountId)
         case None => []
         case Some(r) => [r])
  }

  /** Whether a branch of the search runs: `testAccess` absent or equal to its name. */
  predicate BranchRuns(q: ResultQuery, access: Access) {
    q.testAccess.None? || q.testAccess.value == AccessName(access)
  }

  /** The answer of a search by a known account: the public matches, then the private ones. */
  function ResultsMatch(tests: seq<Test>, userTests: seq<UserTest>, results: seq<Result>,
                        q: ResultQuery, accountId: int): seq<Result> {
    (if BranchRuns(q, Public) then FirstResults(results, MatchingTestIds(tests, q), Public, accountId) else []) +
    (if BranchRuns(q, Private) then FirstResults(results, MatchingUserTestIds(userTests, q, accountId), Private, accountId) else [])
  }

  /** The nested loops of one branch: for each test id, scan the results
      and keep the first one of the account with that access. */
  method CollectFirstResults(results: seq<Result>, ids: seq<int>, access: Access, accountId: int)
    returns (found: seq<Result>)
    ensures found == FirstResults(results, ids, access, accountId)
  {
    found := [];
    for i := 0 to |ids|
      invariant found == FirstResults(results, ids[..i], access, accountId)
    {
      assert ids[..i + 1][..i] == ids[..i];
      var j := 0;
      while j < |results|
        invariant 0 <= j <= |results|
        invariant forall m :: 0 <= m < j ==> !Owns(results[m], ids[i], access, accountId)
        invariant found == FirstResults(results, ids[..i], access, accountId)
      {
        if Owns(results[j], ids[i], access, accountId) {
          var first := FirstResult(results, ids[i], access, accountId);
          assert first == Some(results[j]) by {
            var k := Find(results, (x: Result) => Owns(x, ids[i], access, accountId));
            assert k.Some?;
            assert k.value == j;
          }
          found := found + [results[j]];
          break;
        }
        j := j + 1;
      }
    }
    assert ids[..|ids|] == ids;
  }

  /** ResultController.GetResultsMatch. */
  method GetResultsMatch(db: Db, q: ResultQuery) returns (r: Response<seq<Result>>)
    ensures q.accountId.None? ==> r == BadRequest
    ensures q.accountId.Some? && q.accountId.value !in db.accounts ==> r == NotFound
    ensures q.accountId.Some? && q.accountId.value in db.accounts ==>
      r == Ok(ResultsMatch(db.tests, db.userTests, db.results, q, q.accountId.value))
  {
    if q.accountId.None? {
      return BadRequest;
    }
    var accountId := q.accountId.value;
    if accountId !in db.accounts {
      return NotFound;
    }
    var publicResults: seq<Result> := [];
    if BranchRuns(q, Public) {
      publicResults := CollectFirstResults(db.results, MatchingTestIds(db.tests, q), Public, accountId);
    }
    var privateResults: seq<Result> := [];
    if BranchRuns(q, Private) {
      privateResults := CollectFirstResults(db.results, MatchingUserTestIds(db.userTests, q, accountId), Private, accountId);
    }
    r := Ok(publicResults + privateResults);
  }

  /** Every collected result is a stored result of the account, with the
      branch's access, for one of the ids. */
  lemma {:induction false} FirstResultsSound(results: seq<Result>, ids: seq<int>, access: Access, accountId: int)
    ensures forall x :: x in FirstResults(results, ids, access, accountId) ==>
      (x in results && x.testId in ids && Owns(x, x.testId, access, accountId))
  {
    if ids != [] {
      var n := |ids| - 1;
      var before := FirstResults(results, ids[..n], access, accountId);
      var all := FirstResults(results, ids, access, accountId);
      var first := FirstResult(results, ids[n], access, accountId);
      assert all == before + (if first.Some? then [first.value] else []);
      FirstResultsSound(results, ids[..n], access, accountId);
      forall x | x in all ensures x in results && x.testId in ids && Owns(x, x.testId, access, accountId) {
        if x in before {
          assert x.testId in ids[..n];
        }
      }
    }
  }

  /** Every id that has a result of the account with the branch's access
      contributes one. */
  lemma {:induction false} FirstResultsComplete(results: seq<Result>, ids: seq<int>, access: Access, accountId: int)
    ensures forall id :: id in ids && (exists x :: x in results && Owns(x, id, access, accountId)) ==>
      (exists x :: x in FirstResults(results, ids, access, accountId) && x.testId == id)
  {
    if ids != [] {
      var n := |ids| - 1;
      var before := FirstResults(results, ids[..n], access, accountId);
      var all := FirstResults(results, ids, access, accountId);
      var first := FirstResult(results, ids[n], access, accountId);
      assert all == before + (if first.Some? then [first.value] else []);
      FirstResultsComplete(results, ids[..n], access, accountId);
      forall id | id in ids && (exists x :: x in results && Owns(x, id, access, accountId))
        ensures exists x :: x in all && x.testId == id
      {
        if id in ids[..n] {
          var x :| x in before && x.testId == id;
          assert x in all;
        } else {
          assert id == ids[n];
          var x :| x in results && Owns(x, id, access, accountId);
          var j :| 0 <= j < |results| && results[j] == x;
          assert first.Some?;
          assert first.value in all;
        }
      }
    }
  }

  /** With distinct ids, a branch collects at most one result per test. */
  lemma {:induction false} FirstResultsOnePerTest(results: seq<Result>, ids: seq<int>, access: Access, accountId: int)
    requires forall i, j :: 0 <= i < j < |ids| ==> ids[i] != ids[j]
    ensures forall i, j :: 0 <= i < j < |FirstResults(results, ids, access, accountId)| ==>
      FirstResults(results, ids, access, accountId)[i].testId != FirstResults(results, ids, access, accountId)[j].testId
  {
    if ids != [] {
      var n := |ids| - 1;
      FirstResultsOnePerTest(results, ids[..n], access, accountId);
      FirstResultsSound(results, ids[..n], access, accountId);
      var before := FirstResults(results, ids[..n], access, accountId);
      var found := FirstResults(results, ids, access, accountId);
      forall i, j | 0 <= i < j < |found| ensures found[i].testId != found[j].testId {
        assert found[i] == before[i];
        if j >= |before| {
          assert found[i] in before;
          assert found[j].testId == ids[n];
          assert ids[n] !in ids[..n];
        }
      }
    }
  }

  /** The public ids are exactly the ids of the matching tests. */
  lemma {:induction false} MatchingTestIdsExact(tests: seq<Test>, q: ResultQuery)
    ensures forall id :: id in MatchingTestIds(tests, q) ==>
      (exists k :: 0 <= k < |tests| && tests[k].testId == id && TestMatches(PublicQuery(q), tests[k]))
    ensures forall k :: 0 <= k < |tests| && TestMatches(PublicQuery(q), tests[k]) ==>
      tests[k].testId in MatchingTestIds(tests, q)
  {
    if tests != [] {
      var n := |tests| - 1;
      MatchingTestIdsExact(tests[..n], q);
      var before := MatchingTestIds(tests[..n], q);
      forall id | id in MatchingTestIds(tests, q)
        ensures exists k :: 0 <= k < |tests| && tests[k].testId == id && TestMatches(PublicQuery(q), tests[k])
      {
        if id in before {
          var k :| 0 <= k < n && tests[..n][k].testId == id && TestMatches(PublicQuery(q), tests[..n][k]);
          assert tests[k] == tests[..n][k];
        }
      }
      forall k | 0 <= k < |tests| && TestMatches(PublicQuery(q), tests[k])
        ensures tests[k].testId in MatchingTestIds(tests, q)
      {
        if k < n {
          assert tests[..n][k] == tests[k];
        }
      }
    }
  }

  /** The private ids are exactly the ids of the account's matching user tests. */
  lemma {:induction false} MatchingUserTestIdsExact(userTests: seq<UserTest>, q: ResultQuery, accountId: int)
    ensures forall id :: id in MatchingUserTestIds(userTests, q, accountId) ==>
      (exists k :: 0 <= k < |userTests| && userTests[k].utestId == id && UserTestMatches(q, accountId, userTests[k]))
    ensures forall k :: 0 <= k < |userTests| && UserTestMatches(q, accountId, userTests[k]) ==>
      userTests[k].utestId in MatchingUserTestIds(userTests, q, accountId)
  {
    if userTests != [] {
      var n := |userTests| - 1;
      MatchingUserTestIdsExact(userTests[..n], q, accountId);
      var before := MatchingUserTestIds(userTests[..n], q, accountId);
      forall id | id in MatchingUserTestIds(userTests, q, accountId)
        ensures exists k :: 0 <= k < |userTests| && userTests[k].utestId == id && UserTestMatches(q, accountId, userTests[k])
      {
        if id in before {
          var k :| 0 <= k < n && userTests[..n][k].utestId == id && UserTestMatches(q, accountId, userTests[..n][k]);
          assert userTests[k] == userTests[..n][k];
        }
      }
      forall k | 0 <= k < |userTests| && UserTestMatches(q, accountId, userTests[k])
        ensures userTests[k].utestId in MatchingUserTestIds(userTests, q, accountId)
      {
        if k < n {
          assert userTests[..n][k] == userTests[k];
        }
      }
    }
  }

  /** Distinct table keys give distinct matching ids. */
  lemma {:induction false} MatchingTestIdsDistinct(tests: seq<Test>, q: ResultQuery)
    requires forall i, j :: 0 <= i < j < |tests| ==> tests[i].testId != tests[j].testId
    ensures forall i, j :: 0 <= i < j < |MatchingTestIds(tests, q)| ==>
      MatchingTestIds(tests, q)[i] != MatchingTestIds(tests, q)[j]
  {
    if tests != [] {
      var n := |tests| - 1;
      MatchingTestIdsDistinct(tests[..n], q);
      MatchingTestIdsExact(tests[..n], q);
      var before := MatchingTestIds(tests[..n], q);
      var ids := MatchingTestIds(tests, q);
      forall i, j | 0 <= i < j < |ids| ensures ids[i] != ids[j] {
        assert ids[i] == before[i];
        if j >= |before| {
          assert ids[i] in before;
          var k :| 0 <= k < n && tests[..n][k].testId == ids[i] && TestMatches(PublicQuery(q), tests[..n][k]);
          assert tests[..n][k] == tests[k];
        } else {
          assert ids[j] == before[j];
        }
      }
    }
  }

  lemma {:induction false} MatchingUserTestIdsDistinct(userTests: seq<UserTest>, q: ResultQuery, accountId: int)
    requires forall i, j :: 0 <= i < j < |userTests| ==> userTests[i].utestId != userTests[j].utestId
    ensures forall i, j :: 0 <= i < j < |MatchingUserTestIds(userTests, q, accountId)| ==>
      MatchingUserTestIds(userTests, q, accountId)[i] != MatchingUserTestIds(userTests, q, accountId)[j]
  {
    if userTests != [] {
      var n := |userTests| - 1;
      MatchingUserTestIdsDistinct(userTests[..n], q, accountId);
      MatchingUserTestIdsExact(userTests[..n], q, accountId);
      var before := MatchingUserTestIds(userTests[..n], q, accountId);
      var ids := MatchingUserTestIds(userTests, q, accountId);
      forall i, j | 0 <= i < j < |ids| ensures ids[i] != ids[j] {
        assert ids[i] == before[i];
        if j >= |before| {
          assert ids[i] in before;
          var k :| 0 <= k < n && userTests[..n][k].utestId == ids[i] && UserTestMatches(q, accountId, userTests[..n][k]);
          assert userTests[..n][k] == userTests[k];
        } else {
          assert ids[j] == before[j];
        }
      }
    }
  }

  /** Each result a branch collects is a stored result of the account
      with the branch's access. */
  lemma BranchResultsOwned(results: seq<Result>, ids: seq<int>, access: Access, accountId: int)
    ensures forall i :: 0 <= i < |FirstResults(results, ids, access, accountId)| ==>
      (FirstResults(results, ids, access, accountId)[i] in results &&
       FirstResults(results, ids, access, accountId)[i].testAccess == access &&
       FirstResults(results, ids, access, accountId)[i].accountId == accountId)
  {
    var found := FirstResults(results, ids, access, accountId);
    FirstResultsSound(results, ids, access, accountId);
    forall i | 0 <= i < |found|
      ensures found[i] in results && found[i].testAccess == access && found[i].accountId == accountId
    {
      assert found[i] in found;
    }
  }

  /** The search answers only results of the asking account, and at most
      one per test id and access kind when test and user-test ids are keys. */
  lemma ResultsMatchOnePerTestAndAccess(tests: seq<Test>, userTests: seq<UserTest>, results: seq<Result>,
                                        q: ResultQuery, accountId: int)
    requires forall i, j :: 0 <= i < j < |tests| ==> tests[i].testId != tests[j].testId
    requires forall i, j :: 0 <= i < j < |userTests| ==> userTests[i].utestId != userTests[j].utestId
    ensures forall i :: 0 <= i < |ResultsMatch(tests, userTests, results, q, accountId)| ==>
      (ResultsMatch(tests, userTests, results, q, accountId)[i] in results &&
       ResultsMatch(tests, userTests, results, q, accountId)[i].accountId == accountId)
    ensures forall i, j :: 0 <= i < j < |ResultsMatch(tests, userTests, results, q, accountId)| ==>
      (ResultsMatch(tests, userTests, results, q, accountId)[i].testId !=
         ResultsMatch(tests, userTests, results, q, accountId)[j].testId ||
       ResultsMatch(tests, userTests, results, q, accountId)[i].testAccess !=
         ResultsMatch(tests, userTests, results, q, accountId)[j].testAccess)
  {
    var pubIds := MatchingTestIds(tests, q);
    var privIds := MatchingUserTestIds(userTests, q, accountId);
    MatchingTestIdsDistinct(tests, q);
    MatchingUserTestIdsDistinct(userTests, q, accountId);
    var pub := if BranchRuns(q, Public) then FirstResults(results, pubIds, Public, accountId) else [];
    var priv := if BranchRuns(q, Private) then FirstResults(results, privIds, Private, accountId) else [];
    FirstResultsOnePerTest(results, pubIds, Public, accountId);
    FirstResultsOnePerTest(results, privIds, Private, accountId);
    BranchResultsOwned(results, pubIds, Public, accountId);
    BranchResultsOwned(results, privIds, Private, accountId);
    assert pub + priv == ResultsMatch(tests, userTests, results, q, accountId);
    JoinBranches(pub, priv, results, accountId);
  }

  /** Joining a public and a private branch, each with one result per test. */
  lemma JoinBranches(pub: seq<Result>, priv: seq<Result>, results: seq<Result>, accountId: int)
    requires forall i :: 0 <= i < |pub| ==> pub[i] in results && pub[i].testAccess == Public && pub[i].accountId == accountId
    requires forall i :: 0 <= i < |priv| ==> priv[i] in results && priv[i].testAccess == Private && priv[i].accountId == accountId
    requires forall i, j :: 0 <= i < j < |pub| ==> pub[i].testId != pub[j].testId
    requires forall i, j :: 0 <= i < j < |priv| ==> priv[i].testId != priv[j].testId
    ensures forall i :: 0 <= i < |pub + priv| ==> (pub + priv)[i] in results && (pub + priv)[i].accountId == accountId
    ensures forall i, j :: 0 <= i < j < |pub + priv| ==>
      ((pub + priv)[i].testId != (pub + priv)[j].testId || (pub + priv)[i].testAccess != (pub + priv)[j].testAccess)
  {
    var found := pub + priv;
    forall i | 0 <= i < |found| ensures found[i] in results && found[i].accountId == accountId {
      if i >= |pub| {
        assert found[i] == priv[i - |pub|];
      }
    }
    forall i, j | 0 <= i < j < |found|
      ensures found[i].testId != found[j].testId || found[i].testAccess != found[j].testAccess
    {
      if i >= |pub| {
        assert found[i] == priv[i - |pub|] && found[j] == priv[j - |pub|];
      } else if j >= |pub| {
        assert found[j] == priv[j - |pub|];
      }
    }
  }
}
