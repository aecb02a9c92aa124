/** The section catalogue: guarded inserts of reading and listening
    sections, the per-test section listing with question totals, and the
    partial update of a reading section. */
module Sections {
  import opened Common
  import opened Text
  import opened Schema
  import opened Tests
  import opened QuestionTotals

  /** Names of the two rows of the `Constant` table that cap the sections. */
  const ReadingLimitName := "readingSectionNum"
  const ListeningLimitName := "listeningSectionNum"

  /** A reading-section create request. `Title` and `Content` are
      non-nullable strings, so the model binder requires them (not empty,
      not all white space). */
  datatype ReadingSectionRequest = ReadingSectionRequest(testId: int, title: string, content: string)

  /** A listening-section create request; `timeStamp` is a time of day in seconds. */
  datatype ListeningSectionRequest = ListeningSectionRequest(sectionOrder: int, timeStamp: int,
                                                             transcript: Option<string>, soundId: int)

  predicate ReadingRequestValid(req: ReadingSectionRequest) {
    !IsBlank(req.title) && !IsBlank(req.content)
  }

  /** How many reading sections a test has. */
  function ReadingCount(sections: seq<ReadingSection>, testId: int): nat {
    CountWhere(sections, (s: ReadingSection) => s.testId == testId)
  }

  /** How many listening sections a sound has. */
  function ListeningCount(sections: seq<ListeningSection>, soundId: int): nat {
    CountWhere(sections, (s: ListeningSection) => s.soundId == soundId)
  }

  /** No test has more reading sections than the limit. */
  ghost predicate ReadingWithinLimit(sections: seq<ReadingSection>, limit: real) {
    forall testId :: ReadingCount(sections, testId) as real <= limit
  }

  /** No sound has more listening sections than the limit. */
  ghost predicate ListeningWithinLimit(sections: seq<ListeningSection>, limit: real) {
    forall soundId :: ListeningCount(sections, soundId) as real <= limit
  }

  /** A limit the `decimal` column holds as a whole number. */
  predicate Integral(limit: real) {
    limit.Floor as real == limit
  }

  /** Within one sound no two sections share a `SectionOrder`. */
  predicate OrdersUniquePerSound(sections: seq<ListeningSection>) {
    forall i, j :: 0 <= i < j < |sections| && sections[i].soundId == sections[j].soundId ==>
      sections[i].sectionOrder != sections[j].sectionOrder
  }

  predicate SoundHasOrder(sections: seq<ListeningSection>, soundId: int, order: int) {
    exists j :: 0 <= j < |sections| && sections[j].soundId == soundId && sections[j].sectionOrder == order
  }

  predicate HasSound(sounds: seq<Sound>, soundId: int) {
    exists j :: 0 <= j < |sounds| && sounds[j].soundId == soundId
  }

  /** A count at most an integral limit and different from it can grow by one. */
  lemma StepBelowIntegral(n: nat, limit: real, grows: bool)
    requires Integral(limit) && n as real <= limit
    requires grows ==> n as real != limit
    ensures (n + (if grows then 1 else 0)) as real <= limit
  {
    var whole := limit.Floor;
    assert limit == whole as real;
    assert n <= whole;
  }

  /** Adding a section to a test whose count is not yet at an integral
      limit keeps every test within the limit. */
  lemma {:induction false} AddReadingKeepsLimit(sections: seq<ReadingSection>, s: ReadingSection, limit: real)
    requires Integral(limit) && ReadingWithinLimit(sections, limit)
    requires ReadingCount(sections, s.testId) as real != limit
    ensures ReadingWithinLimit(sections + [s], limit)
  {
    forall testId: int ensures ReadingCount(sections + [s], testId) as real <= limit {
      CountWhereAppend(sections, s, (x: ReadingSection) => x.testId == testId);
      StepBelowIntegral(ReadingCount(sections, testId), limit, testId == s.testId);
    }
  }

  /** The same for the sections of a sound. */
  lemma {:induction false} AddListeningKeepsLimit(sections: seq<ListeningSection>, s: ListeningSection, limit: real)
    requires Integral(limit) && ListeningWithinLimit(sections, limit)
    requires ListeningCount(sections, s.soundId) as real != limit
    ensures ListeningWithinLimit(sections + [s], limit)
  {
    forall soundId: int ensures ListeningCount(sections + [s], soundId) as real <= limit {
      CountWhereAppend(sections, s, (x: ListeningSection) => x.soundId == soundId);
      StepBelowIntegral(ListeningCount(sections, soundId), limit, soundId == s.soundId);
    }
  }

  /** A limit with a fractional part never equals a count, so the guard
      never fires and creation is never refused for reaching it. */
  lemma NonIntegralLimitNeverReached(sections: seq<ReadingSection>, testId: int, limit: real)
    requires !Integral(limit)
    ensures ReadingCount(sections, testId) as real != limit
  {
  }

  /** A section whose order is not yet used in its sound keeps orders unique. */
  lemma {:induction false} AddListeningKeepsOrdersUnique(sections: seq<ListeningSection>, s: ListeningSection)
    requires OrdersUniquePerSound(sections)
    requires !SoundHasOrder(sections, s.soundId, s.sectionOrder)
    ensures OrdersUniquePerSound(sections + [s])
  {
    var after := sections + [s];
    forall i, j | 0 <= i < j < |after| && after[i].soundId == after[j].soundId
      ensures after[i].sectionOrder != after[j].sectionOrder
    {
      if j == |sections| {
        assert after[i] == sections[i];
      } else {
        assert after[i] == sections[i] && after[j] == sections[j];
      }
    }
  }

  /** SectionController.CreateReadingSection. */
  method CreateReadingSection(db: Db, req: ReadingSectionRequest) returns (r: Response<ReadingSection>)
    modifies db`readingSections
    ensures !ReadingRequestValid(req) ==> r == BadRequest
    ensures ReadingRequestValid(req) && FindTest(db.tests, req.testId).None? ==> r == NotFound
    ensures (ReadingRequestValid(req) && FindTest(db.tests, req.testId).Some? &&
             FindTest(db.tests, req.testId).value.testSkill != Reading) ==> r == BadRequest
    ensures r.Ok? <==>
      ReadingRequestValid(req) && FindTest(db.tests, req.testId).Some? &&
      FindTest(db.tests, req.testId).value.testSkill == Reading &&
      ReadingLimitName in db.constants &&
      ReadingCount(old(db.readingSections), req.testId) as real != db.constants[ReadingLimitName]
    ensures (ReadingRequestValid(req) && FindTest(db.tests, req.testId).Some? &&
             FindTest(db.tests, req.testId).value.testSkill == Reading) ==>
      (ReadingLimitName !in db.constants ==> r == NotFound) &&
      ((ReadingLimitName in db.constants &&
        ReadingCount(old(db.readingSections), req.testId) as real == db.constants[ReadingLimitName]) ==> r == BadRequest)
    ensures r.Ok? ==>
      db.readingSections == old(db.readingSections) + [r.value] &&
      r.value.title == req.title && r.value.content == req.content && r.value.testId == req.testId &&
      forall j :: 0 <= j < |old(db.readingSections)| ==> old(db.readingSections)[j].rsectionId < r.value.rsectionId
    ensures !r.Ok? ==> db.readingSections == old(db.readingSections)
    ensures (ReadingLimitName in db.constants && Integral(db.constants[ReadingLimitName]) &&
             ReadingWithinLimit(old(db.readingSections), db.constants[ReadingLimitName])) ==>
            ReadingWithinLimit(db.readingSections, db.constants[ReadingLimitName])
  {
    if !ReadingRequestValid(req) {
      return BadRequest;
    }
    var test := FindTest(db.tests, req.testId);
    if test.None? {
      return NotFound;
    }
    if test.value.testSkill != Reading {
      return BadRequest;
    }
    if ReadingLimitName !in db.constants {
      return NotFound;
    }
    var maxSectionNum := db.constants[ReadingLimitName];
    var sectionCount := ReadingCount(db.readingSections, req.testId);
    if sectionCount as real == maxSectionNum {
      return BadRequest;
    }
    var section := ReadingSection(NextId(db.readingSections, (s: ReadingSection) => s.rsectionId),
                                  req.title, req.content, req.testId);
    if Integral(maxSectionNum) && ReadingWithinLimit(db.readingSections, maxSectionNum) {
      AddReadingKeepsLimit(db.readingSections, section, maxSectionNum);
    }
    db.readingSections := db.readingSections + [section];
    r := Ok(section);
  }

  /** SectionController.CreateListeningSection. */
  method CreateListeningSection(db: Db, req: ListeningSectionRequest) returns (r: Response<ListeningSection>)
    modifies db`listeningSections
    ensures !HasSound(db.sounds, req.soundId) ==> r == NotFound
    ensures HasSound(db.sounds, req.soundId) && ListeningLimitName !in db.constants ==> r == NotFound
    ensures r.Ok? <==>
      HasSound(db.sounds, req.soundId) && ListeningLimitName in db.constants &&
      ListeningCount(old(db.listeningSections), req.soundId) as real != db.constants[ListeningLimitName] &&
      !SoundHasOrder(old(db.listeningSections), req.soundId, req.sectionOrder)
    ensures (HasSound(db.sounds, req.soundId) && ListeningLimitName in db.constants &&
             (ListeningCount(old(db.listeningSections), req.soundId) as real == db.constants[ListeningLimitName] ||
              SoundHasOrder(old(db.listeningSections), req.soundId, req.sectionOrder))) ==> r == BadRequest
    ensures r.Ok? ==>
      db.listeningSections == old(db.listeningSections) + [r.value] &&
      r.value.sectionOrder == req.sectionOrder && r.value.timeStamp == req.timeStamp &&
      r.value.transcript == req.transcript && r.value.soundId == req.soundId &&
      forall j :: 0 <= j < |old(db.listeningSections)| ==> old(db.listeningSections)[j].lsectionId < r.value.lsectionId
    ensures !r.Ok? ==> db.listeningSections == old(db.listeningSections)
    ensures OrdersUniquePerSound(old(db.listeningSections)) ==> OrdersUniquePerSound(db.listeningSections)
    ensures (ListeningLimitName in db.constants && Integral(db.constants[ListeningLimitName]) &&
             ListeningWithinLimit(old(db.listeningSections), db.constants[ListeningLimitName])) ==>
            ListeningWithinLimit(db.listeningSections, db.constants[ListeningLimitName])
  {
    if Find(db.sounds, (s: Sound) => s.soundId == req.soundId).None? {
      return NotFound;
    }
    var sectionCount := ListeningCount(db.listeningSections, req.soundId);
    if ListeningLimitName !in db.constants {
      return NotFound;
    }
    var maxSectionNum := db.constants[ListeningLimitName];
    if sectionCount as real == maxSectionNum {
      return BadRequest;
    }
    if exists j :: 0 <= j < |db.listeningSections| && db.listeningSections[j].soundId == req.soundId &&
                   db.listeningSections[j].sectionOrder == req.sectionOrder {
      return BadRequest;
    }
    var section := ListeningSection(NextId(db.listeningSections, (s: ListeningSection) => s.lsectionId),
                                    req.sectionOrder, req.timeStamp, req.transcript, req.soundId);
    if Integral(maxSectionNum) && ListeningWithinLimit(db.listeningSections, maxSectionNum) {
      AddListeningKeepsLimit(db.listeningSections, section, maxSectionNum);
    }
    if OrdersUniquePerSound(db.listeningSections) {
      AddListeningKeepsOrdersUnique(db.listeningSections, section);
    }
    db.listeningSections := db.listeningSections + [section];
    r := Ok(section);
  }

  /** Ids of a test's reading sections, in table order. */
  function ReadingSectionIds(sections: seq<ReadingSection>, testId: int): (r: seq<int>)
    ensures forall x :: x in r <==> exists s :: s in sections && s.testId == testId && s.rsectionId == x
  {
    if sections == [] then []
    else
      var n := |sections| - 1;
      assert sections == sections[..n] + [sections[n]];
      ReadingSectionIds(sections[..n], testId) + (if sections[n].testId == testId then [sections[n].rsectionId] else [])
  }

  /** Ids of a sound's listening sections, in table order. */
  function ListeningSectionIds(sections: seq<ListeningSection>, soundId: int): (r: seq<int>)
    ensures forall x :: x in r <==> exists s :: s in sections && s.soundId == soundId && s.lsectionId == x
  {
    if sections == [] then []
    else
      var n := |sections| - 1;
      assert sections == sections[..n] + [sections[n]];
      ListeningSectionIds(sections[..n], soundId) + (if sections[n].soundId == soundId then [sections[n].lsectionId] else [])
  }

  /** The sound id a listening test's sections are looked up under: its
      first sound, or `default(int)` 0 when it has none. */
  function TestSoundId(sounds: seq<Sound>, testId: int): int {
    match FirstSound(sounds, testId)
    case None => 0
    case Some(s) => s.soundId
  }

  /** SectionController.FindAllTestSections: a test's sections in table
      order, each with the `Qnum` total of the lists whose first section of
      that kind it is. The action's final `NoContent` answer needs a skill
      other than the two the column allows, so it never occurs. */
  method FindAllTestSections(db: Db, id: int) returns (r: Response<seq<SectionSummary>>)
    ensures FindTest(db.tests, id).None? <==> r == NotFound
    ensures FindTest(db.tests, id).Some? && FindTest(db.tests, id).value.testSkill == Reading ==>
      r == Ok(Summaries(db.questionLists, ReadingSectionIds(db.readingSections, id), Reading))
    ensures FindTest(db.tests, id).Some? && FindTest(db.tests, id).value.testSkill == Listening ==>
      r == Ok(Summaries(db.questionLists,
                        ListeningSectionIds(db.listeningSections, TestSoundId(db.sounds, id)), Listening))
  {
    var test := FindTest(db.tests, id);
    if test.None? {
      return NotFound;
    }
    if test.value.testSkill == Reading {
      var ids := ReadingSectionIds(db.readingSections, id);
      var summaries := ComputeSummaries(db.questionLists, ids, Reading);
      return Ok(summaries);
    }
    var soundId := TestSoundId(db.sounds, id);
    var ids := ListeningSectionIds(db.listeningSections, soundId);
    var summaries := ComputeSummaries(db.questionLists, ids, Listening);
    r := Ok(summaries);
  }

  /** A listed section's total counts the lists whose first section of the
      test's kind is that section, and no other list. */
  lemma ListedTotalsAreLinkedSums(lists: seq<QuestionList>, ids: seq<int>, kind: Skill, i: nat)
    requires i < |ids|
    ensures Summaries(lists, ids, kind)[i].sectionId == ids[i]
    ensures Summaries(lists, ids, kind)[i].questionNum ==
            SumQnum(Filter(lists, (q: QuestionList) => LinkedFirst(q, kind, ids[i])))
  {
    TotalIsSumOfLinked(lists, ids[i], kind);
  }

  /** The fields of a reading section after a patch: a present value
      replaces the stored one, an absent one keeps it. */
  function Patched(s: ReadingSection, title: Option<string>, content: Option<string>): (p: ReadingSection)
    ensures p.rsectionId == s.rsectionId && p.testId == s.testId
    ensures p.title == (if title.Some? then title.value else s.title)
    ensures p.content == (if content.Some? then content.value else s.content)
  {
    s.(title := if title.Some? then title.value else s.title,
       content := if content.Some? then content.value else s.content)
  }

  /** Patching twice with the same fields is patching once; an empty patch changes nothing. */
  lemma PatchIdempotent(s: ReadingSection, title: Option<string>, content: Option<string>)
    ensures Patched(Patched(s, title, content), title, content) == Patched(s, title, content)
    ensures Patched(s, None, None) == s
  {
  }

  /** SectionController.UpdateReadingSection. */
  method UpdateReadingSection(db: Db, id: int, title: Option<string>, content: Option<string>)
    returns (r: Response<ReadingSection>)
    modifies db`readingSections
    ensures Find(old(db.readingSections), (s: ReadingSection) => s.rsectionId == id).None? ==>
      r == NotFound && db.readingSections == old(db.readingSections)
    ensures Find(old(db.readingSections), (s: ReadingSection) => s.rsectionId == id).Some? ==>
      var i := Find(old(db.readingSections), (s: ReadingSection) => s.rsectionId == id).value;
      r == Ok(Patched(old(db.readingSections)[i], title, content)) &&
      db.readingSections == old(db.readingSections)[i := r.value]
  {
    var found := Find(db.readingSections, (s: ReadingSection) => s.rsectionId == id);
    if found.None? {
      return NotFound;
    }
    var section := Patched(db.readingSections[found.value], title, content);
    db.readingSections := db.readingSections[found.value := section];
    r := Ok(section);
  }
}
