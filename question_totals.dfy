/** Per-section question totals: a section's `QuestionNum` is the sum of
    `Qnum` over the question lists whose FIRST linked section (of the
    section's kind) is that section. Lists linked to it only in a later
    position do not count. */
module QuestionTotals {
  import opened Common
  import opened Schema

  /** A section of either kind as the section listings report it. */
  datatype SectionSummary = SectionSummary(sectionId: int, questionNum: int)

  /** The first linked section of the given kind. */
  function FirstSectionOf(q: QuestionList, kind: Skill): Option<int> {
    match kind
    case Reading => FirstReadingSectionId(q)
    case Listening => FirstListeningSectionId(q)
  }

  predicate LinkedFirst(q: QuestionList, kind: Skill, sectionId: int) {
    FirstSectionOf(q, kind) == Some(sectionId)
  }

  /** The total of one section, accumulated over the lists in table order. */
  function Total(lists: seq<QuestionList>, sectionId: int, kind: Skill): int {
    if lists == [] then 0
    else
      var q := lists[|lists| - 1];
      Total(lists[..|lists| - 1], sectionId, kind) + (if LinkedFirst(q, kind, sectionId) then q.qnum else 0)
  }

  /** The summaries of the given sections, in the given order. */
  function Summaries(lists: seq<QuestionList>, ids: seq<int>, kind: Skill): (r: seq<SectionSummary>)
    ensures |r| == |ids|
  {
    seq(|ids|, i requires 0 <= i < |ids| => SectionSummary(ids[i], Total(lists, ids[i], kind)))
  }

  /** The given sections listed with a zero total each, as a listing that
      loses the totals it computed reports them. */
  function Untotalled(ids: seq<int>): (r: seq<SectionSummary>)
    ensures |r| == |ids|
  {
    seq(|ids|, i requires 0 <= i < |ids| => SectionSummary(ids[i], 0))
  }

  /** A section's total is the sum of `Qnum` over exactly the lists whose
      first section of that kind is the section. */
  lemma {:induction false} TotalIsSumOfLinked(lists: seq<QuestionList>, sectionId: int, kind: Skill)
    ensures Total(lists, sectionId, kind) == SumQnum(Filter(lists, (q: QuestionList) => LinkedFirst(q, kind, sectionId)))
  {
    if lists != [] {
      var p := (q: QuestionList) => LinkedFirst(q, kind, sectionId);
      var n := |lists| - 1;
      TotalIsSumOfLinked(lists[..n], sectionId, kind);
      SumQnumAppend(Filter(lists[..n], p), if p(lists[n]) then [lists[n]] else []);
    }
  }

  /** A list whose first section is elsewhere (or absent) does not change a total. */
  lemma {:induction false} TotalIgnoresOtherLists(lists: seq<QuestionList>, q: QuestionList, sectionId: int, kind: Skill)
    requires !LinkedFirst(q, kind, sectionId)
    ensures Total(lists + [q], sectionId, kind) == Total(lists, sectionId, kind)
  {
    assert (lists + [q])[..|lists|] == lists;
  }

  lemma TotalStep(lists: seq<QuestionList>, i: nat, sectionId: int, kind: Skill)
    requires i < |lists|
    ensures Total(lists[..i + 1], sectionId, kind) ==
      Total(lists[..i], sectionId, kind) + (if LinkedFirst(lists[i], kind, sectionId) then lists[i].qnum else 0)
  {
    assert lists[..i + 1][..i] == lists[..i];
  }

  /** The nested loops that fill in `QuestionNum` for each listed section. */
  method ComputeSummaries(lists: seq<QuestionList>, ids: seq<int>, kind: Skill) returns (r: seq<SectionSummary>)
    ensures r == Summaries(lists, ids, kind)
  {
    r := [];
    for k := 0 to |ids|
      invariant r == Summaries(lists, ids[..k], kind)
    {
      var questionNum := 0;
      for i := 0 to |lists|
        invariant questionNum == Total(lists[..i], ids[k], kind)
      {
        var section := FirstSectionOf(lists[i], kind);
        TotalStep(lists, i, ids[k], kind);
        if section.Some? && section.value == ids[k] {
          questionNum := questionNum + lists[i].qnum;
        }
      }
      assert lists[..|lists|] == lists;
      r := r + [SectionSummary(ids[k], questionNum)];
    }
    assert ids[..|ids|] == ids;
  }
}
