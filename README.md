# IeltsTestWeb core in Dafny

IeltsTestWeb is an ASP.NET web API for IELTS practice tests. Its logic lives in
the controllers and request validators:

- a content library of tests, reading sections, sounds, listening sections,
  question lists, questions and explanations;
- user tests assembled from that library. A search picks one section per
  requested question-list type, or one sound whose lists cover the
  requested types.
- results graded by two answer-comparison rules;
- statistics over results, by week of the month, month or year;
- request validators that guard every endpoint.

This project models that logic. The Entity Framework context becomes the
class `Schema.Db`, with one field per table. Rows keep their table order,
which is the order a query enumerates them in. Each controller action becomes
a method on `Db`:

- it returns a `Response` (`Ok`, `BadRequest`, `NotFound` or `ServerError`);
- its `modifies` clause names only the tables it writes.

Every controller carries `[ApiController]`, so a body that fails its request
model's validation attributes gets `BadRequest` before the action body runs.
Each action therefore checks its request model first. The explicit
`ModelState.IsValid` tests inside the actions are reached only for valid
bodies.

Modules, one per source file:

- `Common`: option and response types, search, filter and count over
  sequences, and C#'s truncating integer division.
- `Text`: ASCII lower-casing and the .NET white-space set, with `Trim`,
  `TrimStart`, `TrimEnd`, ordinal case-insensitive equality and prefix.
- `Schema`: the rows and the `Db` class.
- `RequestModels`: `ValidateListAttribute` and `QuestionTypeAttribute`.
- `SectionMatcher`: the section-assignment search of `UserTestController`.
- `QuestionTotals`: the per-section question totals shared by two
  controllers.
- One module per controller: `UserTests`, `Tests`, `Sections`, `Results`,
  `ResultQueries`, `Statistics`, `QuestionLists`, `Questions` and
  `Explanations`.

Three outside inputs become parameters:

- The random draws (`new Random().Next(count)`) become a parameter `pick`;
  the model uses `pick % count`.
- The current date (`DateTime.Now`) becomes a parameter `now`.
- A date is `Date(year, month, day, firstWeekday)`, where `firstWeekday` is
  the weekday of the first of that month, with Sunday = 0.

Other representations:

- A `TimeOnly` is its second of the day.
- A `decimal(10,2)` constant is a `real`, and `(int)` casts truncate toward
  zero.
- `Lower` maps only `A`..`Z`.
- The white-space set is the Unicode `White_Space` set that .NET's `Trim`
  uses.
- String equality is ordinal. MySQL's case-insensitive collation, which
  applies to `==` inside database queries, is not modelled.

Behaviour of the code worth knowing, which the model keeps as written:

- **Explanation rule.** Grading one detail against its explanation
  (`CreateNewDetail`) is case-sensitive and strips trailing white space from
  the answer only (`GradersDiffer`). Only the answer-sheet rule compares
  case-insensitively with both sides trimmed.
- **Week of the month.** A month whose first day is a Sunday puts day 1 in
  week 2 (`FirstDayWeek`, `SundayStartSkipsWeekOne`). Weeks run from 1 to 6,
  and a default order of week 6 is rejected (`DefaultOrderIsNow`), because a
  given week must lie in 1..5.
- **Question orders.** The answer-sheet path does not check question orders.
  Submitting a sheet for a result that already has details can repeat an
  order (`SheetsMayRepeatOrders`), so orders are not unique per result.
- **Re-assembly.** Assembling a user test twice appends a second set of
  detail rows; nothing rejects it.
- **Empty type list.** With no requested types, reading assembly succeeds
  with the single empty selection (`EmptyRequestHasOneSelection`). Listening
  assembly answers `BadRequest`, because no sound has a candidate entry
  (`QualifiesIff`).
- **Listening totals.** Listing a listening user test's sections reports
  every section with a total of 0 (`ListeningTotalsLost`): the totals the
  loop computes are written into the objects of a lazy query, and the
  response enumerates the query afresh. Reading totals survive.
- **Band converter.** The source has no band converter, and its time and
  score statistics endpoints are empty stubs. Only the result counts are
  modelled.

## Model

| member | source | states |
|---|---|---|
| Schema.Db.constructor | IeltsTestWeb/Models/ieltsDbContext.cs:19-49 | A fresh context holds the given accounts and constants and empty tables |
| Schema.FirstReadingSection | IeltsTestWeb/Controllers/SectionController.cs:117-130 | The first reading section linked to a list (`Rsections.FirstOrDefault()`) is a stored section whose id is the list's first link |
| Schema.FirstListeningSection | IeltsTestWeb/Controllers/SectionController.cs:146-159 | The first listening section linked to a list is a stored section whose id is the list's first link |
| Schema.SumQnumAppend | IeltsTestWeb/Controllers/TestController.cs:186-187 | The question total of two groups of lists is the sum of their totals |
| Text.TrimStartIsSuffix | IeltsTestWeb/Controllers/ResultController.cs:267 | What `TrimStart` keeps is a suffix of its input |
| Text.BlankIffTrimEmpty | IeltsTestWeb/RequestModels/QuestionRequestModel.cs:9-10 | A string is blank for `[Required]` exactly when trimming it leaves nothing |
| Text.LowerIdempotent | IeltsTestWeb/Controllers/ResultController.cs:267 | Lower-casing twice is lower-casing once |
| Text.TrimIdempotent | IeltsTestWeb/Controllers/ResultController.cs:267 | Trimming twice is trimming once |
| Text.LowerTrimCommute | IeltsTestWeb/Controllers/ResultController.cs:267 | `ToLower().Trim()` equals `Trim().ToLower()`, since lower-casing never makes or removes white space |
| RequestModels.ValidateList | IeltsTestWeb/RequestModels/DetailRequestModel.cs:27-45 | Too many items is reported exactly for an over-long list; a disallowed item exactly for a list of allowed length holding one; success exactly for a non-list value or an allowed list |
| RequestModels.FirstNotAllowed | IeltsTestWeb/RequestModels/DetailRequestModel.cs:36-42 | The item scan succeeds exactly when every remaining item is allowed |
| RequestModels.QuestionType | IeltsTestWeb/RequestModels/QuestionListRequestModel.cs:25-31 | A value is accepted exactly when it is a string equal, ignoring case, to one of the five list types |
| RequestModels.ExistsIgnoreCase | IeltsTestWeb/RequestModels/QuestionListRequestModel.cs:27 | `Array.Exists` with a case-insensitive comparison: some type equals the value ignoring case |
| RequestModels.CountCheckedFirst | IeltsTestWeb/RequestModels/DetailRequestModel.cs:31-34 | The length check comes before the item check: an over-long list is reported as too long |
| RequestModels.ValidateListEdgeCases | IeltsTestWeb/RequestModels/DetailRequestModel.cs:10-12 | The type list accepts no types and four repeats, rejects five, and accepts a missing value |
| RequestModels.CaseSensitivityDiffers | IeltsTestWeb/RequestModels/QuestionListRequestModel.cs:21-32 | The type-list validator is case-sensitive ("Matching" fails) while the question-type validator is not, and rejects a missing value |
| SectionMatcher.Occurrences | IeltsTestWeb/Controllers/UserTestController.cs:68-89 | The count of a type in the request is its multiplicity |
| SectionMatcher.ReadingRunMembers | IeltsTestWeb/Controllers/UserTestController.cs:76-88 | A section is a candidate for a type exactly when some list of that type has it as its first reading section |
| SectionMatcher.ReadingCandidatesMembers | IeltsTestWeb/Controllers/UserTestController.cs:68-89 | Every requested type gets an entry, and its members are exactly the first sections of lists of that type |
| SectionMatcher.ReadingCandidatesPointwise | IeltsTestWeb/Controllers/UserTestController.cs:68-89 | A map keyed by the requested types with the expected entries is the candidate map |
| SectionMatcher.CandidatesSoFarStep | IeltsTestWeb/Controllers/UserTestController.cs:70-88 | One pass of the outer loop keeps the candidate map correct for the types seen so far |
| SectionMatcher.CandidateKeysStep | IeltsTestWeb/Controllers/UserTestController.cs:70-73 | One pass of the outer loop keeps the keys equal to the types seen so far |
| SectionMatcher.CandidateValuesStep | IeltsTestWeb/Controllers/UserTestController.cs:70-88 | One pass of the outer loop keeps every entry equal to its run, repeated once per occurrence so far |
| SectionMatcher.CandidateEntryStep | IeltsTestWeb/Controllers/UserTestController.cs:76-87 | Appending a type's run to its entry yields the run repeated once more for that type, and leaves other entries alone |
| SectionMatcher.CandidatesSoFarDone | IeltsTestWeb/Controllers/UserTestController.cs:68-89 | After the last type the map is the candidate map |
| SectionMatcher.ReadingRunStep | IeltsTestWeb/Controllers/UserTestController.cs:80-86 | One pass of the inner loop extends the run by the list's first section when its type matches |
| SectionMatcher.BuildReadingCandidates | IeltsTestWeb/Controllers/UserTestController.cs:68-89 | The nested loops build exactly the candidate map |
| SectionMatcher.AppendReadingRun | IeltsTestWeb/Controllers/UserTestController.cs:76-87 | The inner loop appends the first sections of the lists of that type, in table order |
| SectionMatcher.Search.constructor | IeltsTestWeb/Controllers/UserTestController.cs:91-94 | The search starts with no used sections, an empty selection and no results |
| SectionMatcher.Search.FindAllSelectionsRecursively | IeltsTestWeb/Controllers/UserTestController.cs:117-144 | The recursion appends exactly the selections reachable from its state, in order, and restores `usedItemIds` and `currentSelection` on return |
| SectionMatcher.SelectionsSound | IeltsTestWeb/Controllers/UserTestController.cs:117-144 | Every recorded vector is a full selection (one distinct candidate per position) extending the current partial one |
| SectionMatcher.BranchesSound | IeltsTestWeb/Controllers/UserTestController.cs:127-143 | Every vector recorded by the loop over a position's candidates is a full selection extending the current one |
| SectionMatcher.BranchesInclude | IeltsTestWeb/Controllers/UserTestController.cs:127-143 | The loop records every vector that the recursion from an unused candidate records |
| SectionMatcher.SelectionsComplete | IeltsTestWeb/Controllers/UserTestController.cs:117-144 | Every full selection extending the current partial one is recorded |
| SectionMatcher.SearchIsExact | IeltsTestWeb/Controllers/UserTestController.cs:91-100 | From the empty state the search records exactly the vectors that assign pairwise distinct candidates to the requested types |
| SectionMatcher.EmptyRequestHasOneSelection | IeltsTestWeb/Controllers/UserTestController.cs:120-125 | An empty request records one empty selection |
| SectionMatcher.ListeningSkipStep | IeltsTestWeb/Controllers/UserTestController.cs:169-172 | A list of an unrequested type, or with no sound, leaves the sound map unchanged |
| SectionMatcher.ListeningKeyedStep | IeltsTestWeb/Controllers/UserTestController.cs:171-179 | A keyed list adds its type to its sound's entry, creating the entry and extending the key order on first sight |
| SectionMatcher.ListeningOrderStep | IeltsTestWeb/Controllers/UserTestController.cs:174-177 | A keyed list keeps the key order equal to first sight of each sound |
| SectionMatcher.ListeningEntriesStep | IeltsTestWeb/Controllers/UserTestController.cs:174-179 | A keyed list keeps every entry equal to the types of its sound's keyed lists so far |
| SectionMatcher.BuildListeningCandidates | IeltsTestWeb/Controllers/UserTestController.cs:164-183 | The loop builds the sound map: keys in first-sight order, each entry the types of that sound's keyed lists |
| SectionMatcher.ListeningDone | IeltsTestWeb/Controllers/UserTestController.cs:164-183 | After the last list the map and its order are the specified ones |
| SectionMatcher.PassingCandidatesArePossible | IeltsTestWeb/Controllers/UserTestController.cs:189-213 | Filtering the built map gives the qualifying sounds |
| SectionMatcher.SelectQualifyingSounds | IeltsTestWeb/Controllers/UserTestController.cs:189-213 | The qualification loop keeps exactly the sounds whose types pass the all-types check, in key order |
| SectionMatcher.SoundOrderKeys | IeltsTestWeb/Controllers/UserTestController.cs:164-183 | A sound is a key exactly when it has at least one keyed list |
| SectionMatcher.SoundTypesRequested | IeltsTestWeb/Controllers/UserTestController.cs:169-179 | A sound's entry holds only requested types |
| SectionMatcher.SatisfiesIsContainment | IeltsTestWeb/Controllers/UserTestController.cs:185-213 | The `GroupBy` counts check is multiset containment of the request in the sound's types |
| SectionMatcher.QualifiesIff | IeltsTestWeb/Controllers/UserTestController.cs:185-213 | A sound qualifies exactly when the request is non-empty and its multiset is contained in the sound's types |
| SectionMatcher.KeyedDependsOnMembership | IeltsTestWeb/Controllers/UserTestController.cs:164-183 | The sound map depends only on which types are requested |
| SectionMatcher.QualifyingIndependentOfOrder | IeltsTestWeb/Controllers/UserTestController.cs:164-213 | Permuting the requested types gives the same qualifying sounds in the same order |
| QuestionTotals.Summaries | IeltsTestWeb/Controllers/SectionController.cs:111-133 | One summary per listed section |
| QuestionTotals.TotalIsSumOfLinked | IeltsTestWeb/Controllers/SectionController.cs:117-130 | A section's total is the `Qnum` sum of the lists whose first section of that kind it is |
| QuestionTotals.TotalIgnoresOtherLists | IeltsTestWeb/Controllers/UserTestController.cs:504-519 | A list linked first to another section does not change the total |
| QuestionTotals.TotalStep | IeltsTestWeb/Controllers/SectionController.cs:119-129 | One pass of the inner loop adds the list's `Qnum` exactly when the section is its first |
| QuestionTotals.ComputeSummaries | IeltsTestWeb/Controllers/SectionController.cs:111-133 | The nested loops compute exactly the summaries |
| UserTests.FindUserTest | IeltsTestWeb/Controllers/UserTestController.cs:60-63 | The user test found has the id; none is found exactly when no row has it |
| UserTests.AddTestDetails | IeltsTestWeb/Controllers/UserTestController.cs:102-113 | One detail row per chosen section is appended, in order, under the user test; detail ids stay unique |
| UserTests.CreateReadingTestDetail | IeltsTestWeb/Controllers/UserTestController.cs:55-116 | Invalid types give BadRequest, a missing user test NotFound, a listening test BadRequest; success exactly when some selection exists; the picked selection is a full selection and its sections are appended; otherwise nothing changes |
| UserTests.CreateListeningTestDetail | IeltsTestWeb/Controllers/UserTestController.cs:151-238 | The same error cases; success exactly when some sound qualifies; every section of the picked sound is appended in table order; otherwise nothing changes |
| UserTests.ReadingSelectionsExact | IeltsTestWeb/Controllers/UserTestController.cs:68-144 | A vector is among the reading selections exactly when it has one distinct section per requested type, each the first section of a list of that type |
| UserTests.ResolveSections | IeltsTestWeb/Controllers/UserTestController.cs:495-501 | The detail ids resolved against the section table of the test's skill, in order |
| UserTests.FindAllTestSections | IeltsTestWeb/Controllers/UserTestController.cs:481-556 | NotFound for a missing user test; a reading test's existing detail sections with their question totals; a listening test's existing detail sections with total 0 |
| UserTests.ListeningTotalsLost | IeltsTestWeb/Controllers/UserTestController.cs:534-552 | The listening listing names the same sections as a totalled listing would, but with total 0 where the totals are the sums of the first-linked lists' `Qnum` |
| UserTests.ListeningTotalsLostExample | IeltsTestWeb/Controllers/UserTestController.cs:534-552 | Example: a listening section with one linked list of 3 questions is listed with total 0, not 3 |
| UserTests.PrivateResultIdsMembers | IeltsTestWeb/Controllers/UserTestController.cs:449-475 | The ids collected for the cascade are exactly those of the private results of that user test |
| UserTests.DeleteUserTest | IeltsTestWeb/Controllers/UserTestController.cs:449-475 | NotFound changes nothing; otherwise the user test, its details, its private results and their details are removed and all else is kept in order |
| UserTests.DeleteLeavesNoOrphans | IeltsTestWeb/Controllers/UserTestController.cs:449-475 | After the cascade no detail refers to the user test, all other details and all public results survive, and a result detail survives exactly when its result is not a removed one |
| Tests.NewTest | IeltsTestWeb/Controllers/TestController.cs:75-84 | The inserted row has the request's key, the id and a completion count of 0 |
| Tests.InsertKeepsKeysUnique | IeltsTestWeb/Controllers/TestController.cs:24-36 | Inserting a test whose key is not a duplicate keeps keys unique |
| Tests.IsDuplicated | IeltsTestWeb/Controllers/TestController.cs:24-36 | A request is a duplicate exactly when some stored test has the same five-column key |
| Tests.CreateNewTest | IeltsTestWeb/Controllers/TestController.cs:67-87 | BadRequest for an invalid body or a duplicate key; otherwise the row with the request's key, a fresh id above every stored one and the default completion count 0 is appended; key uniqueness is kept |
| Tests.FindTestsMatch | IeltsTestWeb/Controllers/TestController.cs:131-146 | A test is returned exactly when it is stored and matches every given filter (name prefix ignoring case) |
| Tests.NoFilterReturnsAll | IeltsTestWeb/Controllers/TestController.cs:135-141 | With no filter every test is returned, in order |
| Tests.NameFilterIgnoresCase | IeltsTestWeb/Controllers/TestController.cs:136 | The name filter gives the same answer for the name and its lower-cased form |
| Tests.FindTest | IeltsTestWeb/Controllers/TestController.cs:155-157 | The test found has the id; none is found exactly when no row has it |
| Tests.FirstSound | IeltsTestWeb/Controllers/TestController.cs:174-176 | The sound found belongs to the test; none exactly when the test has no sound |
| Tests.GatherReadingLists | IeltsTestWeb/Controllers/TestController.cs:162-170 | The loop collects the lists whose first reading section belongs to the test |
| Tests.GatherListeningLists | IeltsTestWeb/Controllers/TestController.cs:172-184 | The loop collects the lists whose first listening section belongs to the test's sound |
| Tests.SumQuestionNum | IeltsTestWeb/Controllers/TestController.cs:186-187 | The loop sums `Qnum` over the collected lists |
| Tests.ValidateTest | IeltsTestWeb/Controllers/TestController.cs:152-193 | NotFound for a missing test or a listening test without sound; every other test is either valid or reports its total, valid exactly when the collected total is 40 |
| Sections.StepBelowIntegral | IeltsTestWeb/Controllers/SectionController.cs:44-46 | A count at most a whole limit and not equal to it stays within it after one more |
| Sections.AddReadingKeepsLimit | IeltsTestWeb/Controllers/SectionController.cs:40-46 | Under a whole-number limit, adding a section to a test below the limit keeps every test within it |
| Sections.AddListeningKeepsLimit | IeltsTestWeb/Controllers/SectionController.cs:76-80 | The same for sections of a sound |
| Sections.NonIntegralLimitNeverReached | IeltsTestWeb/Controllers/SectionController.cs:44-46 | A fractional limit is never equal to a count, so the guard never fires |
| Sections.AddListeningKeepsOrdersUnique | IeltsTestWeb/Controllers/SectionController.cs:82-84 | Adding a section whose order is new for its sound keeps orders unique per sound |
| Sections.CreateReadingSection | IeltsTestWeb/Controllers/SectionController.cs:27-59 | BadRequest for an invalid body or a listening test, NotFound for a missing test or limit, BadRequest when the count is at the limit; success exactly when the count is not the limit; the new row carries the request and a fresh id; the limit is kept |
| Sections.CreateListeningSection | IeltsTestWeb/Controllers/SectionController.cs:65-98 | NotFound for a missing sound or limit, BadRequest at the limit or for a used order; the new row carries the request; orders stay unique per sound and the limit is kept |
| Sections.ReadingSectionIds | IeltsTestWeb/Controllers/SectionController.cs:113-114 | Exactly the ids of the test's reading sections |
| Sections.ListeningSectionIds | IeltsTestWeb/Controllers/SectionController.cs:137-143 | Exactly the ids of the sound's listening sections |
| Sections.FindAllTestSections | IeltsTestWeb/Controllers/SectionController.cs:104-165 | NotFound exactly for a missing test; otherwise the summaries of its sections, using sound id 0 when a listening test has no sound |
| Sections.ListedTotalsAreLinkedSums | IeltsTestWeb/Controllers/SectionController.cs:117-130 | Each summary names its section and totals the `Qnum` of the lists linked first to it |
| Sections.Patched | IeltsTestWeb/Controllers/SectionController.cs:178-179 | Given fields replace the stored ones, others and the keys are kept |
| Sections.PatchIdempotent | IeltsTestWeb/Controllers/SectionController.cs:171-184 | Applying the same patch twice is applying it once, and an empty patch changes nothing |
| Sections.UpdateReadingSection | IeltsTestWeb/Controllers/SectionController.cs:171-184 | NotFound changes nothing; otherwise the section is replaced in place by its patch |
| Results.AccessOf | IeltsTestWeb/RequestModels/ResultRequestModel.cs:13-15 | Only "public" and "private" name an access, and each names its own |
| Results.MaxTime | IeltsTestWeb/Controllers/ResultController.cs:81 | A constructed `TimeOnly` is a whole number of minutes within one day |
| Results.MaxTimeExact | IeltsTestWeb/Controllers/ResultController.cs:81 | `new TimeOnly(m / 60, m % 60)` succeeds exactly for 0 to 1439 minutes and is then m minutes |
| Results.TimeLimitIsWholeMinutes | IeltsTestWeb/Controllers/ResultController.cs:59-81 | A found limit is the truncated constant, in whole minutes within a day |
| Results.Completed | IeltsTestWeb/Controllers/ResultController.cs:86-87 | The completion count grows by one, a missing count stays missing, nothing else changes |
| Results.NewResultKeepsScores | IeltsTestWeb/Controllers/ResultController.cs:89-97 | A new result with score 0 and a fresh id keeps every score equal to its right answers |
| Results.Scored | IeltsTestWeb/Controllers/ResultController.cs:142-143 | The score grows by the gained points, the id is kept |
| Results.AddDetailsKeepsScores | IeltsTestWeb/Controllers/ResultController.cs:269-286 | Adding one result's detail rows and raising its score by their right count keeps every score equal to its right answers |
| Results.SaveGraded | IeltsTestWeb/Controllers/ResultController.cs:286 | The score and the detail rows are saved together and the score invariant is kept |
| Results.CreateNewResult | IeltsTestWeb/Controllers/ResultController.cs:26-102 | BadRequest for an invalid body, NotFound for an unknown account or test; NotFound for a missing limit constant, ServerError for a limit outside one day, BadRequest for a time over the limit; success exactly when the time limit converts and is not exceeded; the row has score 0 and the request's fields; a public test's completion count grows |
| Results.FirstExplanation | IeltsTestWeb/Controllers/ResultController.cs:122-124 | The explanation found belongs to the question; none exactly when the question has none |
| Results.StateOf | IeltsTestWeb/Controllers/ResultController.cs:134-140 | The state is right exactly when the answer is accepted |
| Results.NextDetailId | IeltsTestWeb/Controllers/ResultController.cs:126-132 | A new detail id exceeds every stored one |
| Results.AddDetailKeepsOrdersUnique | IeltsTestWeb/Controllers/ResultController.cs:118-120 | A detail whose order is new for its result keeps orders unique per result |
| Results.RightCountOne | IeltsTestWeb/Controllers/ResultController.cs:134-140 | One detail counts one right answer exactly when it is right |
| Results.CreateNewDetail | IeltsTestWeb/Controllers/ResultController.cs:108-146 | BadRequest for an invalid body or a repeated order, NotFound for a missing result or explanation; otherwise the detail is right exactly when the explanation equals the answer without trailing white space, the score grows by one for it; order uniqueness and scores are kept |
| Results.FindQuestion | IeltsTestWeb/Controllers/ResultController.cs:263-265 | The question found has the id; none exactly when no row has it |
| Results.GradeLine | IeltsTestWeb/Controllers/ResultController.cs:261-272 | Line i pairs question i with answer i + 1 and the question's stored answer |
| Results.DetailRows | IeltsTestWeb/Controllers/ResultController.cs:274-283 | One detail row per graded line |
| Results.DetailRowsAt | IeltsTestWeb/Controllers/ResultController.cs:274-283 | Row i has order i + 1, the line's question and answer, and is right exactly when the line is |
| Results.Grade | IeltsTestWeb/Controllers/ResultController.cs:258-284 | A sheet graded through line n has exactly n graded lines |
| Results.GradeSucceedsIff | IeltsTestWeb/Controllers/ResultController.cs:258-284 | A sheet grades exactly when every line has an answer and an existing question |
| Results.GradeLines | IeltsTestWeb/Controllers/ResultController.cs:258-284 | A graded sheet has one graded line per question, in order |
| Results.GradeFailurePersists | IeltsTestWeb/Controllers/ResultController.cs:258-284 | The first failure ends grading: later lines do not change it |
| Results.DetailRowsRights | IeltsTestWeb/Controllers/ResultController.cs:269-283 | The rows count as many right answers as the sheet has, all under the result |
| Results.GradeStep | IeltsTestWeb/Controllers/ResultController.cs:258-284 | Grading one more gradable line appends its graded line |
| Results.SheetStep | IeltsTestWeb/Controllers/ResultController.cs:269-283 | One more line adds its row and one point exactly when it is right |
| Results.GradeSheet | IeltsTestWeb/Controllers/ResultController.cs:258-284 | The loop grades the sheet, builds its rows and counts its right answers |
| Results.CreateListResultDetails | IeltsTestWeb/Controllers/ResultController.cs:252-289 | NotFound for a missing result or question, ServerError for a missing answer, nothing saved then; otherwise the rows are added, the score grows by the right count and is returned; scores are kept |
| Results.AnswerAcceptsIgnoresCaseAndSpace | IeltsTestWeb/Controllers/ResultController.cs:267 | The sheet rule is equality ignoring case after trimming both sides |
| Results.StrictAcceptanceImpliesLenient | IeltsTestWeb/Controllers/ResultController.cs:134 | An answer the explanation rule accepts is accepted by the sheet rule |
| Results.GradersDiffer | IeltsTestWeb/Controllers/ResultController.cs:134 | The explanation rule rejects a differently cased answer and a leading space that the sheet rule accepts |
| Results.SheetsMayRepeatOrders | IeltsTestWeb/Controllers/ResultController.cs:274-283 | The sheet path can add a second detail with an order its result already has |
| ResultQueries.KeyRowsConcat | IeltsTestWeb/Controllers/ResultController.cs:184 | The rows of one order in two parts are those of each part, in order |
| ResultQueries.ResultRows | IeltsTestWeb/Controllers/ResultController.cs:179 | Exactly the details of the result |
| ResultQueries.InsertAddsOne | IeltsTestWeb/Controllers/ResultController.cs:184 | Inserting adds exactly the row |
| ResultQueries.SortPermutes | IeltsTestWeb/Controllers/ResultController.cs:184 | Sorting by order is a permutation |
| ResultQueries.InsertKeepsBound | IeltsTestWeb/Controllers/ResultController.cs:184 | Inserting keeps a common lower bound of the orders |
| ResultQueries.InsertKeepsSorted | IeltsTestWeb/Controllers/ResultController.cs:184 | Inserting into a sorted sequence keeps it sorted |
| ResultQueries.KeyRowsNone | IeltsTestWeb/Controllers/ResultController.cs:184 | A sequence whose orders are all larger has no rows of that order |
| ResultQueries.InsertKeyRows | IeltsTestWeb/Controllers/ResultController.cs:184 | Inserting places the row after the rows of equal order |
| ResultQueries.SortIsSorted | IeltsTestWeb/Controllers/ResultController.cs:184 | The sort is sorted by order |
| ResultQueries.SortIsStable | IeltsTestWeb/Controllers/ResultController.cs:184 | Rows of equal order keep their table order |
| ResultQueries.GetAllDetails | IeltsTestWeb/Controllers/ResultController.cs:177-186 | The listed details are sorted by question order and are a permutation of the result's rows |
| ResultQueries.GetAllDetailsCorrect | IeltsTestWeb/Controllers/ResultController.cs:177-186 | The details of the result, sorted by order, as a permutation, with ties in table order |
| ResultQueries.MatchingTestIds | IeltsTestWeb/Controllers/ResultController.cs:206-210 | At most one id per test |
| ResultQueries.MatchingUserTestIds | IeltsTestWeb/Controllers/ResultController.cs:225-230 | At most one id per user test |
| ResultQueries.MatchingTestIdsExact | IeltsTestWeb/Controllers/ResultController.cs:206-210 | Exactly the ids of the public tests matching the name, type and skill filters |
| ResultQueries.MatchingUserTestIdsExact | IeltsTestWeb/Controllers/ResultController.cs:225-230 | Exactly the ids of the account's user tests matching the filters |
| ResultQueries.MatchingTestIdsDistinct | IeltsTestWeb/Controllers/ResultController.cs:206-210 | With unique test ids the matched ids are distinct |
| ResultQueries.MatchingUserTestIdsDistinct | IeltsTestWeb/Controllers/ResultController.cs:225-230 | With unique user test ids the matched ids are distinct |
| ResultQueries.FirstResult | IeltsTestWeb/Controllers/ResultController.cs:212-220 | The inner loop's `break` keeps a result of the account for that test and access; none exactly when there is none |
| ResultQueries.CollectFirstResults | IeltsTestWeb/Controllers/ResultController.cs:212-220 | The nested loops keep the first owned result of each matched test |
| ResultQueries.GetResultsMatch | IeltsTestWeb/Controllers/ResultController.cs:192-246 | BadRequest without an account id, NotFound for an unknown account, otherwise the public then the private branch as filtered |
| ResultQueries.FirstResultsSound | IeltsTestWeb/Controllers/ResultController.cs:212-220 | Every kept result is stored, of a matched test, and owned by the account with that access |
| ResultQueries.FirstResultsComplete | IeltsTestWeb/Controllers/ResultController.cs:212-220 | Every matched test with an owned result has one kept |
| ResultQueries.FirstResultsOnePerTest | IeltsTestWeb/Controllers/ResultController.cs:212-220 | With distinct ids at most one result per test is kept |
| ResultQueries.BranchResultsOwned | IeltsTestWeb/Controllers/ResultController.cs:204-241 | A branch keeps only stored results of the account with its access |
| ResultQueries.ResultsMatchOnePerTestAndAccess | IeltsTestWeb/Controllers/ResultController.cs:192-246 | The answer holds only the account's results and at most one per test and access |
| ResultQueries.JoinBranches | IeltsTestWeb/Controllers/ResultController.cs:204-241 | Joining a public and a private branch keeps ownership and one result per test and access |
| Statistics.WeekOfMonth | IeltsTestWeb/Controllers/StatisticController.cs:92-100 | On a real date the week of the month is between 1 and 6 |
| Statistics.WeekOfMonthIsCalendarRow | IeltsTestWeb/Controllers/StatisticController.cs:92-100 | The week is the Sunday-first calendar row, one row further when the month starts on a Sunday |
| Statistics.WeekOfMonthRange | IeltsTestWeb/Controllers/StatisticController.cs:92-100 | Weeks run from 1 to 6 |
| Statistics.WeekOfMonthMonotone | IeltsTestWeb/Controllers/StatisticController.cs:92-100 | A later day of the month is never in an earlier week |
| Statistics.FirstDayWeek | IeltsTestWeb/Controllers/StatisticController.cs:96-99 | The first of the month is in week 1, or week 2 when it is a Sunday |
| Statistics.SundayStartSkipsWeekOne | IeltsTestWeb/Controllers/StatisticController.cs:96-99 | A month starting on Sunday has no day in week 1 |
| Statistics.WednesdayStartExample | IeltsTestWeb/Controllers/StatisticController.cs:96-99 | Example: with the first on a Wednesday, day 1 is in week 1 and day 6 in week 2 |
| Statistics.ValidTimeFrame | IeltsTestWeb/Controllers/StatisticController.cs:101-105 | Only the lower-case tags pass, because `List.Contains` compares ordinally |
| Statistics.GivenOrderAcceptedIff | IeltsTestWeb/Controllers/StatisticController.cs:53-87 | A given order is accepted exactly when it lies in its frame's range: weeks 1-5, months 1-12, years 2024 to the current year |
| Statistics.ResolveOrder | IeltsTestWeb/Controllers/StatisticController.cs:53-87 | A resolved order is in range (weeks 1-5, months 1-12, years 2024 to now) and is the given one when given; otherwise BadRequest |
| Statistics.DefaultOrderIsNow | IeltsTestWeb/Controllers/StatisticController.cs:53-87 | Without an order, the current month, year or week is used, and week 6 is rejected |
| Statistics.CountWeek | IeltsTestWeb/Controllers/StatisticController.cs:53-65 | The loop counts the results of the scope in that week |
| Statistics.CountTaken | IeltsTestWeb/Controllers/StatisticController.cs:53-87 | BadRequest for an out-of-range order, otherwise the count of the scope's results in the window |
| Statistics.GetTestTaken | IeltsTestWeb/Controllers/StatisticController.cs:44-91 | BadRequest for an invalid frame or order, otherwise the count of public results in the window |
| Statistics.GetUserTestTaken | IeltsTestWeb/Controllers/StatisticController.cs:111-167 | NotFound for an unknown account, all its results without a frame, otherwise its results in the window |
| Statistics.OutOfScopeNotCounted | IeltsTestWeb/Controllers/StatisticController.cs:53-87 | A result outside the scope never changes a count |
| Statistics.WindowWithinScope | IeltsTestWeb/Controllers/StatisticController.cs:53-87 | A window's count never exceeds the scope's count |
| Statistics.WindowsIgnoreTheRestOfTheDate | IeltsTestWeb/Controllers/StatisticController.cs:53-76 | The month window ignores the year and the week window ignores month and year |
| QuestionLists.LowerKeepsTypes | IeltsTestWeb/RequestModels/QuestionListRequestModel.cs:23 | The declared types are already lower case |
| QuestionLists.StoredTypeIsDeclared | IeltsTestWeb/Controllers/QuestionListController.cs:30-34 | A valid request's type is stored as one of the declared enum members |
| QuestionLists.FindQuestionList | IeltsTestWeb/Controllers/QuestionListController.cs:65-68 | The position found has the id; none exactly when no row has it |
| QuestionLists.NextListId | IeltsTestWeb/Controllers/QuestionListController.cs:30-34 | A new list id exceeds every stored one |
| QuestionLists.NewListKeepsQnum | IeltsTestWeb/Controllers/QuestionListController.cs:30-34 | A new list with `Qnum` 0 keeps every count equal to its questions and every question's list stored |
| QuestionLists.CreateNewQuestionList | IeltsTestWeb/Controllers/QuestionListController.cs:25-57 | BadRequest for an invalid body, NotFound for a missing section of the given kind; otherwise one list with `Qnum` 0 linked to the section is appended; counts and unique ids are kept |
| QuestionLists.NewListKeepsIdsUnique | IeltsTestWeb/Controllers/QuestionListController.cs:30-34 | A new list with a fresh id keeps list ids unique |
| QuestionLists.ChoiceRow | IeltsTestWeb/Controllers/QuestionListController.cs:124-136 | The first choice row of the list; none exactly when it has none |
| QuestionLists.GetChoiceList | IeltsTestWeb/Controllers/QuestionListController.cs:195-203 | NotFound exactly when the list has no choice row |
| QuestionLists.UpsertChoice | IeltsTestWeb/Controllers/QuestionListController.cs:124-136 | The upsert adds at most one row and leaves the rows of other lists alone |
| QuestionLists.UpsertChoiceSets | IeltsTestWeb/Controllers/QuestionListController.cs:124-136 | After the upsert the list's choices are the new ones |
| QuestionLists.UpsertChoiceIdempotent | IeltsTestWeb/Controllers/QuestionListController.cs:124-136 | Repeating the upsert changes nothing |
| QuestionLists.UpsertChoiceKeepsOnePerList | IeltsTestWeb/Controllers/QuestionListController.cs:124-136 | The upsert keeps one choice row per list |
| QuestionLists.AddChoiceList | IeltsTestWeb/Controllers/QuestionListController.cs:115-141 | NotFound for a missing list, BadRequest unless it is a matching list; otherwise the choices are upserted |
| QuestionLists.DiagramRow | IeltsTestWeb/Controllers/QuestionListController.cs:76-102 | The first diagram row of the list; none exactly when it has none |
| QuestionLists.GetDiagramImage | IeltsTestWeb/Controllers/QuestionListController.cs:181-189 | NotFound exactly when the list has no diagram row |
| QuestionLists.UpsertDiagram | IeltsTestWeb/Controllers/QuestionListController.cs:76-102 | The upsert adds at most one row and leaves the rows of other lists alone |
| QuestionLists.UpsertDiagramSets | IeltsTestWeb/Controllers/QuestionListController.cs:76-102 | After the upsert the list's image is the new link |
| QuestionLists.UpsertDiagramKeepsOnePerList | IeltsTestWeb/Controllers/QuestionListController.cs:76-102 | The upsert keeps one diagram row per list |
| QuestionLists.UploadDiagramImage | IeltsTestWeb/Controllers/QuestionListController.cs:63-109 | NotFound for a missing list, BadRequest unless it is a diagram list, BadRequest for a rejected image of a diagram list; otherwise the link is upserted and its full URL returned |
| QuestionLists.SectionLists | IeltsTestWeb/Controllers/QuestionListController.cs:154-172 | Exactly the lists whose first section of that kind is the given one |
| QuestionLists.CollectSectionLists | IeltsTestWeb/Controllers/QuestionListController.cs:154-172 | The loop collects the section's lists in table order |
| QuestionLists.GetSectionQuestionList | IeltsTestWeb/Controllers/QuestionListController.cs:147-175 | BadRequest without both parameters, otherwise the section's lists |
| QuestionLists.ListedUnderFirstSectionOnly | IeltsTestWeb/Controllers/QuestionListController.cs:154-162 | A reading list is listed under its first section and no other |
| QuestionLists.UpdateQuestionList | IeltsTestWeb/Controllers/QuestionListController.cs:209-221 | NotFound exactly for a missing list; otherwise only its content changes |
| QuestionLists.ContentUpdateKeepsCounts | IeltsTestWeb/Controllers/QuestionListController.cs:216 | Changing content keeps counts and section links |
| Questions.NextQuestionId | IeltsTestWeb/Controllers/QuestionController.cs:48-56 | A new question id exceeds every stored one |
| Questions.AddQuestionKeepsTables | IeltsTestWeb/Controllers/QuestionController.cs:46-56 | Adding a question to a list and raising its `Qnum` keeps every count equal to its questions, ids unique and questions attached |
| Questions.CreateNewQuestion | IeltsTestWeb/Controllers/QuestionController.cs:37-61 | BadRequest for an invalid body, NotFound for a missing list; otherwise the list's `Qnum` grows by one and the question is appended |
| Questions.GetQuestionListQuestion | IeltsTestWeb/Controllers/QuestionController.cs:69-74 | Exactly the questions of the list |
| Questions.QuestionsOfListNumberQnum | IeltsTestWeb/Controllers/QuestionController.cs:69-74 | While counts are kept, a list has as many questions as its `Qnum` |
| Questions.NewQuestionListedLast | IeltsTestWeb/Controllers/QuestionController.cs:48-56 | A new question is listed after the list's earlier ones |
| Explanations.NextExplanationId | IeltsTestWeb/Controllers/ExplanationController.cs:45-51 | A new explanation id exceeds every stored one |
| Explanations.CreateNewExplanation | IeltsTestWeb/Controllers/ExplanationController.cs:34-55 | BadRequest for an invalid body or a question that already has one, NotFound for a missing question; otherwise it is appended; one explanation per question is kept |
| Explanations.GetExplanation | IeltsTestWeb/Controllers/ExplanationController.cs:61-69 | NotFound exactly when the question has no explanation, otherwise one of its explanations |
| Explanations.GetExplanationIsTheOne | IeltsTestWeb/Controllers/ExplanationController.cs:61-69 | With one explanation per question, the lookup returns that one |
| Explanations.CreatedExplanationFound | IeltsTestWeb/Controllers/ExplanationController.cs:42-51 | A created explanation is the one found for its question |
| Explanations.FindExplanation | IeltsTestWeb/Controllers/ExplanationController.cs:77-80 | The position found has the id; none exactly when no row has it |
| Explanations.UpdateExplanation | IeltsTestWeb/Controllers/ExplanationController.cs:75-87 | NotFound exactly for a missing explanation; otherwise only its content changes; one explanation per question is kept |
| Explanations.UpdatedExplanationFound | IeltsTestWeb/Controllers/ExplanationController.cs:75-87 | After an update the question's lookup returns the new content and other lookups are unchanged |

## Left out

- Authentication, JWT handling, accounts, roles and application start-up are not part of this model. An account is known only by its id.
- File and audio storage are left out because they are I/O. `UploadDiagramImage` takes the validity of the image, its stored link and the request origin as parameters. Image upload for reading sections and sounds is not modelled.
- `UploadReadingTest` and `ParseJsonFromDoc` are left out. They are a bulk import that parses a document and calls an outside service.
- The IELTS band converter does not exist in the source. The statistics endpoints for time spent and score (`StatisticController.cs:173-185`) are empty stubs. Neither is modelled.
- `UpdateTest`, `UpdateQuestion` and the account updates copy fields by reflection over the request object. Their request model for questions is not part of the source. They are left out.
- `UpdateListeningSection` never saves its change, and this is evidently a defect. `GetAllUserTest` ignores its account filter, and the name check in `UpdateUserTest` is vacuous. These are left out rather than specified.
- The plain reads are left out: `GetAllResults`, `GetResult`, `GetAllTests`, `FindTestById`, `GetAllUserTest`, `FindAllUserTestsMatch`, `GetUserTestById`, `GetReadingTestDetails`, `GetListeningTestDetails`, `GetUserCount` and `GetTestCount`. Each returns rows as stored. `CreateNewUserTest` is a guarded insert like `CreateNewTest` and is left out too.
- Mappers and response models are not modelled. Actions return the stored rows. A created question list therefore carries the stored lower-case type (`QuestionLists.StoredType`), where the response echoes the request's own spelling, such as "Matching".
- Sections.FindAllTestSections: `ListeningSectionResponseModel` (`ResponseModels/ListeningSectionResponseModel.cs:3-15`) declares no `QuestionNum`, yet both section listings assign one. The model follows the controllers: this listing materialises its responses (`SectionController.cs:143`) before filling the totals in, so its listening sections carry the totals the loop computes. The user-test listing (`UserTestController.cs:534`) enumerates a lazy query twice, so `UserTests.FindAllTestSections` reports its listening totals as 0.
- Async execution, Entity Framework change tracking and transactions are left out. Each action is one sequential step, and an action that fails writes nothing.
- Integers are unbounded. The source's 32-bit `int` overflow of scores, counts and ids is not modelled.
- Database key generation is modelled as one more than the largest stored key (`NextId`).
- `TimeOnly` precision below one second is not modelled.
- A `null` body field that `[Required]` rejects is modelled as a blank string. The same holds for a missing `CompleteTime`.
- Results.CreateNewResult: the score invariant is stated only for the result table. The completion count of a test is not related to the number of its results, because the source keeps that count only for public tests that had a count.
- Questions.CreateNewQuestion: its contract states the new tables. The invariant it keeps (every `Qnum` equals the number of the list's questions) is stated by `Questions.AddQuestionKeepsTables`.
- QuestionTotals.Summaries: its own contract states only one summary per section. The totals are stated by `Sections.ListedTotalsAreLinkedSums` and `QuestionTotals.TotalIsSumOfLinked`.
- ResultQueries.MatchingTestIds and ResultQueries.MatchingUserTestIds: their own contracts state only a bound. What they match is stated by the `...Exact` and `...Distinct` lemmas.
