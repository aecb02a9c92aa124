/** The section-assignment matcher behind user-test assembly.

    Reading: a map from each requested type to candidate reading sections,
    then an exhaustive backtracking search for every vector that gives each
    requested type (by position) a distinct candidate section.

    Listening: question lists grouped by the sound of their first listening
    section; a sound qualifies when, for every requested type, it carries at
    least as many lists of that type as the request names it. */
module SectionMatcher {
  import opened Common
  import opened Schema

  // ---------------------------------------------------------------------
  // Reading: candidate map

  /** Ids of the first reading section of every list of type `t`, in table
      order; lists without a reading section are skipped. */
  function ReadingRun(lists: seq<QuestionList>, t: string): seq<int> {
    if lists == [] then []
    else
      var q := lists[|lists| - 1];
      ReadingRun(lists[..|lists| - 1], t) + (if q.qlistType == t && q.rsections != [] then [q.rsections[0]] else [])
  }

  /** How many times `t` occurs in `types`. */
  function Occurrences(types: seq<string>, t: string): (n: nat)
    ensures n == multiset(types)[t]
  {
    if types == [] then 0
    else
      assert types == types[..|types| - 1] + [types[|types| - 1]];
      Occurrences(types[..|types| - 1], t) + (if types[|types| - 1] == t then 1 else 0)
  }

  /** `candidates` as CreateReadingTestDetail leaves it: one key per requested
      type, holding the run for that type once per occurrence of the type in
      the request. */
  function ReadingCandidates(lists: seq<QuestionList>, types: seq<string>): map<string, seq<int>> {
    map t | t in types :: Repeat(ReadingRun(lists, t), Occurrences(types, t))
  }

  lemma {:induction false} ReadingRunMembers(lists: seq<QuestionList>, t: string, x: int)
    ensures x in ReadingRun(lists, t) <==>
      exists i :: 0 <= i < |lists| && lists[i].qlistType == t && FirstReadingSectionId(lists[i]) == Some(x)
  {
    if lists != [] {
      var n := |lists| - 1;
      ReadingRunMembers(lists[..n], t, x);
      if x in ReadingRun(lists[..n], t) {
        var i :| 0 <= i < n && lists[..n][i].qlistType == t && FirstReadingSectionId(lists[..n][i]) == Some(x);
        assert lists[i] == lists[..n][i];
      }
      if exists i :: 0 <= i < |lists| && lists[i].qlistType == t && FirstReadingSectionId(lists[i]) == Some(x) {
        var i :| 0 <= i < |lists| && lists[i].qlistType == t && FirstReadingSectionId(lists[i]) == Some(x);
        if i < n { assert lists[..n][i] == lists[i]; }
      }
    }
  }

  /** A section is a candidate for a requested type exactly when it is the
      first reading section of some list of that type. */
  lemma ReadingCandidatesMembers(lists: seq<QuestionList>, types: seq<string>, t: string, x: int)
    requires t in types
    ensures t in ReadingCandidates(lists, types)
    ensures x in ReadingCandidates(lists, types)[t] <==>
      exists i :: 0 <= i < |lists| && lists[i].qlistType == t && FirstReadingSectionId(lists[i]) == Some(x)
  {
    ReadingRunMembers(lists, t, x);
  }

  /** A map agreeing with ReadingCandidates key by key is that map. */
  lemma ReadingCandidatesPointwise(lists: seq<QuestionList>, types: seq<string>, candidates: map<string, seq<int>>)
    requires forall u :: u in candidates <==> u in types
    requires forall u :: u in candidates ==> candidates[u] == Repeat(ReadingRun(lists, u), Occurrences(types, u))
    ensures candidates == ReadingCandidates(lists, types)
  {
  }

  /** `candidates` after the first `k` iterations of the outer loop. */
  ghost predicate CandidatesSoFar(lists: seq<QuestionList>, types: seq<string>, k: nat, candidates: map<string, seq<int>>)
    requires k <= |types|
  {
    CandidateKeys(types, k, candidates) && CandidateValues(lists, types, k, candidates)
  }

  /** The keys after `k` iterations: the first `k` requested types. */
  ghost predicate CandidateKeys(types: seq<string>, k: nat, candidates: map<string, seq<int>>)
    requires k <= |types|
  {
    forall u :: u in candidates <==> u in types[..k]
  }

  /** The entries after `k` iterations: each type's run, once per occurrence so far. */
  ghost predicate CandidateValues(lists: seq<QuestionList>, types: seq<string>, k: nat, candidates: map<string, seq<int>>)
    requires k <= |types|
  {
    forall u :: u in candidates ==> candidates[u] == Repeat(ReadingRun(lists, u), Occurrences(types[..k], u))
  }

  lemma CandidatesSoFarStep(lists: seq<QuestionList>, types: seq<string>, k: nat,
                             c0: map<string, seq<int>>, items: seq<int>)
    requires k < |types| && CandidatesSoFar(lists, types, k, c0)
    requires items == (if types[k] in c0 then c0[types[k]] else []) + ReadingRun(lists, types[k])
    ensures CandidatesSoFar(lists, types, k + 1, c0[types[k] := items])
  {
    CandidateKeysStep(types, k, c0, items);
    CandidateValuesStep(lists, types, k, c0, items);
  }

  lemma CandidateKeysStep(types: seq<string>, k: nat, c0: map<string, seq<int>>, items: seq<int>)
    requires k < |types| && CandidateKeys(types, k, c0)
    ensures CandidateKeys(types, k + 1, c0[types[k] := items])
  {
    var c1 := c0[types[k] := items];
    assert types[..k + 1] == types[..k] + [types[k]];
    forall u ensures u in c1 <==> u in types[..k + 1] {
      assert u in types[..k + 1] <==> u in types[..k] || u == types[k];
    }
  }

  lemma CandidateValuesStep(lists: seq<QuestionList>, types: seq<string>, k: nat,
                            c0: map<string, seq<int>>, items: seq<int>)
    requires k < |types| && CandidatesSoFar(lists, types, k, c0)
    requires items == (if types[k] in c0 then c0[types[k]] else []) + ReadingRun(lists, types[k])
    ensures CandidateValues(lists, types, k + 1, c0[types[k] := items])
  {
    var c1 := c0[types[k] := items];
    forall u | u in c1
      ensures c1[u] == Repeat(ReadingRun(lists, u), Occurrences(types[..k + 1], u))
    {
      assert u in c0 ==> c0[u] == Repeat(ReadingRun(lists, u), Occurrences(types[..k], u));
      assert u !in c0 ==> u !in types[..k];
      CandidateEntryStep(lists, types, k, c0, items, u);
    }
  }

  lemma CandidateEntryStep(lists: seq<QuestionList>, types: seq<string>, k: nat,
                           c0: map<string, seq<int>>, items: seq<int>, u: string)
    requires k < |types|
    requires u in c0 ==> c0[u] == Repeat(ReadingRun(lists, u), Occurrences(types[..k], u))
    requires u !in c0 ==> u !in types[..k]
    requires items == (if types[k] in c0 then c0[types[k]] else []) + ReadingRun(lists, types[k])
    requires u in c0 || u == types[k]
    ensures c0[types[k] := items][u] == Repeat(ReadingRun(lists, u), Occurrences(types[..k + 1], u))
  {
    var run := ReadingRun(lists, u);
    var n := Occurrences(types[..k], u);
    assert types[..k + 1][..k] == types[..k];
    if u == types[k] {
      assert Occurrences(types[..k + 1], u) == n + 1;
      if u !in c0 {
        assert n == 0;
      }
      assert Repeat(run, n + 1) == Repeat(run, n) + run;
    } else {
      assert Occurrences(types[..k + 1], u) == n;
    }
  }


  lemma CandidatesSoFarDone(lists: seq<QuestionList>, types: seq<string>, candidates: map<string, seq<int>>)
    requires CandidatesSoFar(lists, types, |types|, candidates)
    ensures candidates == ReadingCandidates(lists, types)
  {
    assert types[..|types|] == types;
    ReadingCandidatesPointwise(lists, types, candidates);
  }

  lemma ReadingRunStep(lists: seq<QuestionList>, i: nat, t: string)
    requires i < |lists|
    ensures ReadingRun(lists[..i + 1], t) == ReadingRun(lists[..i], t) +
      (if lists[i].qlistType == t && lists[i].rsections != [] then [lists[i].rsections[0]] else [])
  {
    assert lists[..i + 1][..i] == lists[..i];
  }

  /** The nested loops that fill `candidates`. */
  method BuildReadingCandidates(lists: seq<QuestionList>, types: seq<string>) returns (candidates: map<string, seq<int>>)
    ensures candidates == ReadingCandidates(lists, types)
  {
    candidates := map[];
    for k := 0 to |types|
      invariant CandidatesSoFar(lists, types, k, candidates)
    {
      var t := types[k];
      // the list stored under `t` (a new one when `t` is not a key yet), grown in place
      var items: seq<int> := [];
      if t in candidates {
        items := candidates[t];
      }
      items := AppendReadingRun(lists, t, items);
      CandidatesSoFarStep(lists, types, k, candidates, items);
      candidates := candidates[t := items];
    }
    CandidatesSoFarDone(lists, types, candidates);
  }

  /** The inner loop: append the first reading section of every list of type `t`. */
  method AppendReadingRun(lists: seq<QuestionList>, t: string, items: seq<int>) returns (grown: seq<int>)
    ensures grown == items + ReadingRun(lists, t)
  {
    grown := items;
    assert lists[..0] == [];
    for i := 0 to |lists|
      invariant grown == items + ReadingRun(lists[..i], t)
    {
      var q := lists[i];
      ReadingRunStep(lists, i, t);
      if q.qlistType == t {
        if q.rsections != [] {
          grown := grown + [q.rsections[0]];
        }
      }
    }
    assert lists[..|lists|] == lists;
  }


  // ---------------------------------------------------------------------
  // Reading: exhaustive search

  predicate Distinct(v: seq<int>) {
    forall i, j :: 0 <= i < j < |v| ==> v[i] != v[j]
  }

  /** A full assignment: one section per requested position, taken from the
      candidates of the type at that position, no section used twice. */
  predicate IsSelection(v: seq<int>, conditions: seq<string>, candidates: map<string, seq<int>>) {
    |v| == |conditions| && Distinct(v) &&
    forall i :: 0 <= i < |v| ==> conditions[i] in candidates && v[i] in candidates[conditions[i]]
  }

  predicate KeysCover(conditions: seq<string>, candidates: map<string, seq<int>>) {
    forall t :: t in conditions ==> t in candidates
  }

  /** The vectors a call at `index` appends to `allResults`, given the
      current `usedItemIds` and `currentSelection`, in the order it appends them. */
  function Selections(conditions: seq<string>, candidates: map<string, seq<int>>, index: nat,
                      used: set<int>, current: seq<int>): seq<seq<int>>
    requires index <= |conditions| && KeysCover(conditions, candidates)
    decreases |conditions| - index, 1, 0
  {
    if index == |conditions| then [current]
    else Branches(conditions, candidates, index, used, current, candidates[conditions[index]])
  }

  /** The vectors appended by the `foreach` over `items` (a prefix of the
      candidates for position `index`). */
  function Branches(conditions: seq<string>, candidates: map<string, seq<int>>, index: nat,
                    used: set<int>, current: seq<int>, items: seq<int>): seq<seq<int>>
    requires index < |conditions| && KeysCover(conditions, candidates)
    decreases |conditions| - index, 0, |items|
  {
    if items == [] then []
    else
      var item := items[|items| - 1];
      Branches(conditions, candidates, index, used, current, items[..|items| - 1]) +
      (if item in used then [] else Selections(conditions, candidates, index + 1, used + {item}, current + [item]))
  }

  /** The mutable state FindAllSelectionsRecursively works on: the set of
      used ids, the selection being built and the list of complete ones. */
  class Search {
    var usedItemIds: set<int>
    var currentSelection: seq<int>
    var allResults: seq<seq<int>>

    constructor ()
      ensures usedItemIds == {} && currentSelection == [] && allResults == []
    {
      usedItemIds, currentSelection, allResults := {}, [], [];
    }

    /** Appends every completion of `currentSelection` from `index` on, and
        leaves `usedItemIds` and `currentSelection` as it found them. */
    method FindAllSelectionsRecursively(conditions: seq<string>, candidates: map<string, seq<int>>, index: nat)
      requires index <= |conditions| && KeysCover(conditions, candidates)
      modifies this
      decreases |conditions| - index
      ensures usedItemIds == old(usedItemIds) && currentSelection == old(currentSelection)
      ensures allResults == old(allResults) + Selections(conditions, candidates, index, old(usedItemIds), old(currentSelection))
    {
      if index == |conditions| {
        allResults := allResults + [currentSelection];
        return;
      }
      var condition := conditions[index];
      var items := candidates[condition];
      for j := 0 to |items|
        invariant usedItemIds == old(usedItemIds) && currentSelection == old(currentSelection)
        invariant allResults == old(allResults) + Branches(conditions, candidates, index, old(usedItemIds), old(currentSelection), items[..j])
      {
        var item := items[j];
        assert items[..j + 1][..j] == items[..j];
        if item !in usedItemIds {
          usedItemIds := usedItemIds + {item};
          currentSelection := currentSelection + [item];
          FindAllSelectionsRecursively(conditions, candidates, index + 1);
          usedItemIds := usedItemIds - {item};
          currentSelection := currentSelection[..|currentSelection| - 1];
        }
      }
      assert items[..|items|] == items;
    }
  }

  /** The state before a call at `index`: `current` is a valid partial
      assignment of the first `index` positions and `used` holds exactly its ids. */
  ghost predicate PartialSelection(conditions: seq<string>, candidates: map<string, seq<int>>, index: nat,
                             used: set<int>, current: seq<int>)
  {
    index <= |conditions| && |current| == index && Distinct(current) &&
    (forall x :: x in used <==> x in current) &&
    forall i :: 0 <= i < index ==> conditions[i] in candidates && current[i] in candidates[conditions[i]]
  }

  lemma {:induction false} SelectionsSound(conditions: seq<string>, candidates: map<string, seq<int>>, index: nat,
                                           used: set<int>, current: seq<int>)
    requires KeysCover(conditions, candidates) && PartialSelection(conditions, candidates, index, used, current)
    ensures forall v :: v in Selections(conditions, candidates, index, used, current) ==>
      IsSelection(v, conditions, candidates) && v[..index] == current
    decreases |conditions| - index, 1, 0
  {
    if index < |conditions| {
      var items := candidates[conditions[index]];
      BranchesSound(conditions, candidates, index, used, current, items);
    }
  }

  lemma {:induction false} BranchesSound(conditions: seq<string>, candidates: map<string, seq<int>>, index: nat,
                                         used: set<int>, current: seq<int>, items: seq<int>)
    requires index < |conditions| && KeysCover(conditions, candidates)
    requires PartialSelection(conditions, candidates, index, used, current)
    requires forall x :: x in items ==> x in candidates[conditions[index]]
    ensures forall v :: v in Branches(conditions, candidates, index, used, current, items) ==>
      IsSelection(v, conditions, candidates) && v[..index] == current
    decreases |conditions| - index, 0, |items|
  {
    if items != [] {
      var n := |items| - 1;
      var item := items[n];
      BranchesSound(conditions, candidates, index, used, current, items[..n]);
      if item !in used {
        var next := current + [item];
        assert PartialSelection(conditions, candidates, index + 1, used + {item}, next);
        SelectionsSound(conditions, candidates, index + 1, used + {item}, next);
        forall v | v in Selections(conditions, candidates, index + 1, used + {item}, next)
          ensures v[..index] == current
        {
          assert v[..index] == v[..index + 1][..index];
        }
      }
    }
  }

  lemma {:induction false} BranchesInclude(conditions: seq<string>, candidates: map<string, seq<int>>, index: nat,
                                           used: set<int>, current: seq<int>, items: seq<int>, item: int)
    requires index < |conditions| && KeysCover(conditions, candidates)
    requires item in items && item !in used
    ensures forall w :: w in Selections(conditions, candidates, index + 1, used + {item}, current + [item]) ==>
      w in Branches(conditions, candidates, index, used, current, items)
    decreases |items|
  {
    var n := |items| - 1;
    if items[n] != item {
      BranchesInclude(conditions, candidates, index, used, current, items[..n], item);
    }
  }

  lemma {:induction false} SelectionsComplete(conditions: seq<string>, candidates: map<string, seq<int>>, index: nat,
                                              used: set<int>, current: seq<int>, v: seq<int>)
    requires KeysCover(conditions, candidates) && PartialSelection(conditions, candidates, index, used, current)
    requires IsSelection(v, conditions, candidates) && v[..index] == current
    ensures v in Selections(conditions, candidates, index, used, current)
    decreases |conditions| - index
  {
    if index == |conditions| {
      assert v == v[..index];
    } else {
      var item := v[index];
      var next := current + [item];
      assert v[..index + 1] == next;
      assert PartialSelection(conditions, candidates, index + 1, used + {item}, next);
      SelectionsComplete(conditions, candidates, index + 1, used + {item}, next, v);
      BranchesInclude(conditions, candidates, index, used, current, candidates[conditions[index]], item);
    }
  }

  /** The search records exactly the valid assignments: a vector is in
      `allResults` after the top-level call iff it is a selection. */
  lemma SearchIsExact(conditions: seq<string>, candidates: map<string, seq<int>>)
    requires KeysCover(conditions, candidates)
    ensures forall v :: v in Selections(conditions, candidates, 0, {}, []) <==> IsSelection(v, conditions, candidates)
  {
    assert PartialSelection(conditions, candidates, 0, {}, []);
    SelectionsSound(conditions, candidates, 0, {}, []);
    forall v | IsSelection(v, conditions, candidates)
      ensures v in Selections(conditions, candidates, 0, {}, [])
    {
      SelectionsComplete(conditions, candidates, 0, {}, [], v);
    }
  }

  /** An empty request has exactly one selection, the empty one. */
  lemma EmptyRequestHasOneSelection(candidates: map<string, seq<int>>)
    ensures Selections([], candidates, 0, {}, []) == [[]]
  {
  }

  // ---------------------------------------------------------------------
  // Listening: candidates keyed by sound

  /** The sound of a list's first listening section, when that section exists. */
  function SoundOf(sections: seq<ListeningSection>, q: QuestionList): Option<int> {
    match FirstListeningSection(sections, q)
    case None => None
    case Some(section) => Some(section.soundId)
  }

  /** Whether the candidate loop files list `q` under some sound. */
  predicate Keyed(sections: seq<ListeningSection>, types: seq<string>, q: QuestionList) {
    q.qlistType in types && SoundOf(sections, q).Some?
  }

  /** `candidates[soundId]`: the types of the keyed lists of that sound, in table order. */
  function SoundTypes(lists: seq<QuestionList>, sections: seq<ListeningSection>, types: seq<string>, soundId: int): seq<string> {
    if lists == [] then []
    else
      var q := lists[|lists| - 1];
      SoundTypes(lists[..|lists| - 1], sections, types, soundId) +
      (if Keyed(sections, types, q) && SoundOf(sections, q).value == soundId then [q.qlistType] else [])
  }

  /** The keys of `candidates` in insertion order, the order the dictionary enumerates them in. */
  function SoundOrder(lists: seq<QuestionList>, sections: seq<ListeningSection>, types: seq<string>): seq<int> {
    if lists == [] then []
    else
      var q := lists[|lists| - 1];
      var order := SoundOrder(lists[..|lists| - 1], sections, types);
      if Keyed(sections, types, q) && SoundOf(sections, q).value !in order then order + [SoundOf(sections, q).value]
      else order
  }

  /** The all-types check of one candidate: each requested type occurs among
      the sound's types at least as often as in the request. */
  predicate Satisfies(types: seq<string>, available: seq<string>) {
    forall t :: t in types ==> multiset(types)[t] <= multiset(available)[t]
  }

  /** `possibleResults`: the qualifying sounds, in enumeration order. */
  function PossibleSounds(lists: seq<QuestionList>, sections: seq<ListeningSection>, types: seq<string>): seq<int> {
    Filter(SoundOrder(lists, sections, types), (s: int) => Satisfies(types, SoundTypes(lists, sections, types, s)))
  }

  /** Ids of the listening sections of a sound, in table order. */
  function SoundSectionIds(sections: seq<ListeningSection>, soundId: int): seq<int> {
    if sections == [] then []
    else
      var l := sections[|sections| - 1];
      SoundSectionIds(sections[..|sections| - 1], soundId) + (if l.soundId == soundId then [l.lsectionId] else [])
  }

  /** `order` and `candidates` after the first `i` question lists. */
  ghost predicate ListeningSoFar(lists: seq<QuestionList>, sections: seq<ListeningSection>, types: seq<string>,
                                 i: nat, order: seq<int>, candidates: map<int, seq<string>>)
    requires i <= |lists|
  {
    ListeningOrder(lists, sections, types, i, order, candidates) &&
    ListeningEntries(lists, sections, types, i, candidates)
  }

  /** The sounds met so far, in order, are the keys. */
  ghost predicate ListeningOrder(lists: seq<QuestionList>, sections: seq<ListeningSection>, types: seq<string>,
                                 i: nat, order: seq<int>, candidates: map<int, seq<string>>)
    requires i <= |lists|
  {
    order == SoundOrder(lists[..i], sections, types) && (forall s :: s in candidates <==> s in order)
  }

  /** Each sound's entry holds the types of its lists so far. */
  ghost predicate ListeningEntries(lists: seq<QuestionList>, sections: seq<ListeningSection>, types: seq<string>,
                                   i: nat, candidates: map<int, seq<string>>)
    requires i <= |lists|
  {
    (forall s :: s in candidates ==> candidates[s] == SoundTypes(lists[..i], sections, types, s)) &&
    (forall s :: s !in candidates ==> SoundTypes(lists[..i], sections, types, s) == [])
  }

  /** A list filed under no sound changes neither the order nor any entry. */
  lemma ListeningSkipStep(lists: seq<QuestionList>, sections: seq<ListeningSection>, types: seq<string>,
                          i: nat, order: seq<int>, candidates: map<int, seq<string>>)
    requires i < |lists| && ListeningSoFar(lists, sections, types, i, order, candidates)
    requires !Keyed(sections, types, lists[i])
    ensures ListeningSoFar(lists, sections, types, i + 1, order, candidates)
  {
    assert lists[..i + 1][..i] == lists[..i];
    forall s ensures SoundTypes(lists[..i + 1], sections, types, s) == SoundTypes(lists[..i], sections, types, s) {
    }
  }

  /** A list filed under `soundId` is appended to that sound's entry, and
      the sound joins the order when it is new. */
  lemma ListeningKeyedStep(lists: seq<QuestionList>, sections: seq<ListeningSection>, types: seq<string>,
                           i: nat, order: seq<int>, candidates: map<int, seq<string>>, soundId: int)
    requires i < |lists| && ListeningSoFar(lists, sections, types, i, order, candidates)
    requires Keyed(sections, types, lists[i]) && SoundOf(sections, lists[i]) == Some(soundId)
    ensures ListeningSoFar(lists, sections, types, i + 1,
      if soundId in candidates then order else order + [soundId],
      candidates[soundId := (if soundId in candidates then candidates[soundId] else []) + [lists[i].qlistType]])
  {
    ListeningOrderStep(lists, sections, types, i, order, candidates, soundId);
    ListeningEntriesStep(lists, sections, types, i, candidates, soundId);
  }

  lemma ListeningOrderStep(lists: seq<QuestionList>, sections: seq<ListeningSection>, types: seq<string>,
                           i: nat, order: seq<int>, candidates: map<int, seq<string>>, soundId: int)
    requires i < |lists| && ListeningOrder(lists, sections, types, i, order, candidates)
    requires Keyed(sections, types, lists[i]) && SoundOf(sections, lists[i]) == Some(soundId)
    ensures ListeningOrder(lists, sections, types, i + 1,
      if soundId in candidates then order else order + [soundId],
      candidates[soundId := (if soundId in candidates then candidates[soundId] else []) + [lists[i].qlistType]])
  {
    assert lists[..i + 1][..i] == lists[..i];
  }

  lemma ListeningEntriesStep(lists: seq<QuestionList>, sections: seq<ListeningSection>, types: seq<string>,
                             i: nat, candidates: map<int, seq<string>>, soundId: int)
    requires i < |lists| && ListeningEntries(lists, sections, types, i, candidates)
    requires Keyed(sections, types, lists[i]) && SoundOf(sections, lists[i]) == Some(soundId)
    ensures ListeningEntries(lists, sections, types, i + 1,
      candidates[soundId := (if soundId in candidates then candidates[soundId] else []) + [lists[i].qlistType]])
  {
    var c1 := candidates[soundId := (if soundId in candidates then candidates[soundId] else []) + [lists[i].qlistType]];
    forall s ensures SoundTypes(lists[..i + 1], sections, types, s) ==
      SoundTypes(lists[..i], sections, types, s) + (if s == soundId then [lists[i].qlistType] else [])
    {
      assert lists[..i + 1][..i] == lists[..i];
    }
    forall s | s in c1 ensures c1[s] == SoundTypes(lists[..i + 1], sections, types, s) {
      if s != soundId {
        assert c1[s] == candidates[s];
      }
    }
  }

  /** The loop over the question lists that fills `candidates`. */
  method BuildListeningCandidates(lists: seq<QuestionList>, sections: seq<ListeningSection>, types: seq<string>)
    returns (order: seq<int>, candidates: map<int, seq<string>>)
    ensures order == SoundOrder(lists, sections, types)
    ensures forall s :: s in candidates <==> s in order
    ensures forall i :: 0 <= i < |order| ==> order[i] in candidates
    ensures forall s :: s in candidates ==> candidates[s] == SoundTypes(lists, sections, types, s)
  {
    order, candidates := [], map[];
    for i := 0 to |lists|
      invariant ListeningSoFar(lists, sections, types, i, order, candidates)
    {
      var q := lists[i];
      var section := FirstListeningSection(sections, q);
      if q.qlistType in types && section.Some? {
        var soundId := section.value.soundId;
        ListeningKeyedStep(lists, sections, types, i, order, candidates, soundId);
        var entry: seq<string> := [];
        if soundId in candidates {
          entry := candidates[soundId];
        } else {
          order := order + [soundId];
        }
        candidates := candidates[soundId := entry + [q.qlistType]];
      } else {
        ListeningSkipStep(lists, sections, types, i, order, candidates);
      }
    }
    ListeningDone(lists, sections, types, order, candidates);
  }

  lemma ListeningDone(lists: seq<QuestionList>, sections: seq<ListeningSection>, types: seq<string>,
                      order: seq<int>, candidates: map<int, seq<string>>)
    requires ListeningSoFar(lists, sections, types, |lists|, order, candidates)
    ensures order == SoundOrder(lists, sections, types)
    ensures forall s :: s in candidates <==> s in order
    ensures forall i :: 0 <= i < |order| ==> order[i] in candidates
    ensures forall s :: s in candidates ==> candidates[s] == SoundTypes(lists, sections, types, s)
  {
    assert lists[..|lists|] == lists;
  }

  /** The sounds of `order` whose entry in `candidates` passes the all-types check. */
  function PassingCandidates(types: seq<string>, order: seq<int>, candidates: map<int, seq<string>>): seq<int> {
    Filter(order, (s: int) => s in candidates && Satisfies(types, candidates[s]))
  }

  lemma PassingCandidatesArePossible(lists: seq<QuestionList>, sections: seq<ListeningSection>, types: seq<string>,
                                     candidates: map<int, seq<string>>)
    requires forall s :: s in candidates <==> s in SoundOrder(lists, sections, types)
    requires forall s :: s in candidates ==> candidates[s] == SoundTypes(lists, sections, types, s)
    ensures PassingCandidates(types, SoundOrder(lists, sections, types), candidates) == PossibleSounds(lists, sections, types)
  {
    FilterExtensional(SoundOrder(lists, sections, types),
      (s: int) => s in candidates && Satisfies(types, candidates[s]),
      (s: int) => Satisfies(types, SoundTypes(lists, sections, types, s)));
  }

  /** The loop over the candidates that keeps the sounds passing the all-types check. */
  method SelectQualifyingSounds(types: seq<string>, order: seq<int>, candidates: map<int, seq<string>>)
    returns (possible: seq<int>)
    requires forall i :: 0 <= i < |order| ==> order[i] in candidates
    ensures possible == PassingCandidates(types, order, candidates)
  {
    possible := [];
    for k := 0 to |order|
      invariant possible == PassingCandidates(types, order[..k], candidates)
    {
      assert order[..k + 1][..k] == order[..k];
      if Satisfies(types, candidates[order[k]]) {
        possible := possible + [order[k]];
      }
    }
    assert order[..|order|] == order;
  }

  lemma {:induction false} SoundOrderKeys(lists: seq<QuestionList>, sections: seq<ListeningSection>, types: seq<string>, s: int)
    ensures s in SoundOrder(lists, sections, types) <==> SoundTypes(lists, sections, types, s) != []
  {
    if lists != [] {
      SoundOrderKeys(lists[..|lists| - 1], sections, types, s);
    }
  }

  lemma {:induction false} SoundTypesRequested(lists: seq<QuestionList>, sections: seq<ListeningSection>, types: seq<string>, s: int)
    ensures forall t :: t in SoundTypes(lists, sections, types, s) ==> t in types
  {
    if lists != [] {
      SoundTypesRequested(lists[..|lists| - 1], sections, types, s);
    }
  }

  lemma SatisfiesIsContainment(types: seq<string>, available: seq<string>)
    ensures Satisfies(types, available) <==> multiset(types) <= multiset(available)
  {
    if Satisfies(types, available) {
      forall t ensures multiset(types)[t] <= multiset(available)[t] {
        if t !in types { assert multiset(types)[t] == 0; }
      }
    }
  }

  /** A sound qualifies iff the request is non-empty and the request's types,
      counted with multiplicity, are contained in the types of the sound's
      keyed lists. Lists of other types and surplus lists do not matter. */
  lemma QualifiesIff(lists: seq<QuestionList>, sections: seq<ListeningSection>, types: seq<string>, s: int)
    ensures s in PossibleSounds(lists, sections, types) <==>
      types != [] && multiset(types) <= multiset(SoundTypes(lists, sections, types, s))
  {
    var available := SoundTypes(lists, sections, types, s);
    SoundOrderKeys(lists, sections, types, s);
    SatisfiesIsContainment(types, available);
    if types == [] {
      SoundTypesRequested(lists, sections, types, s);
    } else if multiset(types) <= multiset(available) {
      assert multiset(types)[types[0]] > 0;
      assert available != [];
    }
  }

  lemma {:induction false} KeyedDependsOnMembership(lists: seq<QuestionList>, sections: seq<ListeningSection>,
                                                    t1: seq<string>, t2: seq<string>)
    requires forall x :: x in t1 <==> x in t2
    ensures SoundOrder(lists, sections, t1) == SoundOrder(lists, sections, t2)
    ensures forall s :: SoundTypes(lists, sections, t1, s) == SoundTypes(lists, sections, t2, s)
  {
    if lists != [] {
      KeyedDependsOnMembership(lists[..|lists| - 1], sections, t1, t2);
    }
  }

  /** Requests that name the same types with the same multiplicities, in any
      order, qualify the same sounds in the same order (so the same `pick`
      chooses the same sound). */
  lemma QualifyingIndependentOfOrder(lists: seq<QuestionList>, sections: seq<ListeningSection>,
                                     t1: seq<string>, t2: seq<string>)
    requires multiset(t1) == multiset(t2)
    ensures PossibleSounds(lists, sections, t1) == PossibleSounds(lists, sections, t2)
  {
    forall x ensures x in t1 <==> x in t2 {
      assert x in t1 <==> x in multiset(t1);
    }
    KeyedDependsOnMembership(lists, sections, t1, t2);
    var order := SoundOrder(lists, sections, t1);
    FilterExtensional(order,
      (s: int) => Satisfies(t1, SoundTypes(lists, sections, t1, s)),
      (s: int) => Satisfies(t2, SoundTypes(lists, sections, t2, s)));
  }
}
