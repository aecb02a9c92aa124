/** The two custom validation attributes of the request models and the
    fixed `SectionType` pattern. A request property's runtime value is a
    `Value`: null, a list of strings, a string, or something else. */
module RequestModels {
  import opened Text

  datatype Value = Null | StringList(items: seq<string>) | Str(s: string) | OtherValue

  /** What `ValidationAttribute.IsValid` answers; the two failures carry
      different messages in the source, so they are kept apart. */
  datatype Validation = Success | TooManyItems | ItemNotAllowed | NotAType

  /** The five question-list types (the `qlist_type` enum column). */
  const QuestionListTypes: seq<string> := ["multiple_choice", "matching", "true_false", "complete", "diagram"]

  /** The same five, as the attribute's `HashSet<string>` of allowed values. */
  const AllowedTypes: set<string> := {"multiple_choice", "matching", "true_false", "complete", "diagram"}

  /** The `ValidateList(4, ...)` attribute placed on `DetailRequestModel.Types`. */
  const MaxTypes := 4

  /** `ValidateListAttribute.IsValid`: a list of strings fails when it is
      longer than `maxCount`, and otherwise when one of its items is not in
      `allowed` (exact, case-sensitive membership). Any other value passes. */
  function ValidateList(maxCount: int, allowed: set<string>, value: Value): (r: Validation)
    ensures r != NotAType
    ensures r == TooManyItems <==> value.StringList? && |value.items| > maxCount
    ensures r == ItemNotAllowed <==>
      value.StringList? && |value.items| <= maxCount && exists i :: 0 <= i < |value.items| && value.items[i] !in allowed
    ensures r == Success <==>
      !value.StringList? || (|value.items| <= maxCount && forall x :: x in value.items ==> x in allowed)
  {
    match value
    case StringList(items) =>
      if |items| > maxCount then TooManyItems
      else FirstNotAllowed(items, allowed, 0)
    case _ => Success
  }

  /** The `foreach` over the items, returning at the first one not allowed. */
  function FirstNotAllowed(items: seq<string>, allowed: set<string>, i: nat): (r: Validation)
    requires i <= |items|
    ensures r == Success || r == ItemNotAllowed
    ensures r == Success <==> forall j :: i <= j < |items| ==> items[j] in allowed
    decreases |items| - i
  {
    if i == |items| then Success
    else if items[i] !in allowed then ItemNotAllowed
    else FirstNotAllowed(items, allowed, i + 1)
  }

  /** The validation of `DetailRequestModel.Types`. */
  predicate TypesValid(types: seq<string>) {
    ValidateList(MaxTypes, AllowedTypes, StringList(types)) == Success
  }

  /** `QuestionTypeAttribute.IsValid`: a string equal, ignoring case, to one of the five types. */
  function QuestionType(value: Value): (r: Validation)
    ensures r == Success || r == NotAType
    ensures r == Success <==> value.Str? && exists t :: t in QuestionListTypes && EqualsIgnoreCase(t, value.s)
  {
    if value.Str? && ExistsIgnoreCase(QuestionListTypes, value.s) then Success else NotAType
  }

  /** `Array.Exists(types, t => t.Equals(s, OrdinalIgnoreCase))`. */
  predicate ExistsIgnoreCase(types: seq<string>, s: string)
    ensures ExistsIgnoreCase(types, s) <==> exists t :: t in types && EqualsIgnoreCase(t, s)
  {
    if types == [] then false
    else EqualsIgnoreCase(types[0], s) || ExistsIgnoreCase(types[1..], s)
  }

  /** The `^(reading|listening)$` pattern on `QuestionListRequestModel.SectionType`. */
  predicate SectionTypeValid(sectionType: string) {
    sectionType == "reading" || sectionType == "listening"
  }

  /** The count check comes first: an over-long list is reported as too long
      even when its items are also not allowed. */
  lemma CountCheckedFirst(maxCount: int, allowed: set<string>, items: seq<string>)
    requires |items| > maxCount
    ensures ValidateList(maxCount, allowed, StringList(items)) == TooManyItems
  {
  }

  /** Duplicates and the empty list are accepted; null is not a list and passes. */
  lemma ValidateListEdgeCases()
    ensures TypesValid([])
    ensures TypesValid(["matching", "matching", "matching", "matching"])
    ensures !TypesValid(["matching", "matching", "matching", "matching", "matching"])
    ensures ValidateList(MaxTypes, AllowedTypes, Null) == Success
  {
  }

  /** The list check is case-sensitive while the single-type check is not. */
  lemma {:induction false} CaseSensitivityDiffers()
    ensures !TypesValid(["Matching"])
    ensures QuestionType(Str("Matching")) == Success
    ensures QuestionType(Null) == NotAType
  {
    assert "Matching" !in AllowedTypes by {
      assert "Matching"[0] != "matching"[0];
    }
    assert EqualsIgnoreCase(QuestionListTypes[1], "Matching") by {
      LowerKeepsLowerCase("matching");
      assert Lower("Matching") == "matching";
    }
  }
}
