/** The body of a create or update request and its bean-validation rules. */
module ExpenseRequests {
  import opened Results
  import opened Dates
  import opened Categories

  /** Every field may be `null` (`None`) as it arrives. */
  datatype ExpenseRequest = ExpenseRequest(
    description: Option<string>,
    amount: Option<real>,
    category: Option<Category>,
    expenseDate: Option<LocalDate>,
    notes: Option<string>)

  /** A character that `String.trim` strips: U+0020 and everything below it. */
  predicate IsBlankChar(ch: char) {
    ch <= ' '
  }

  /** `@NotBlank`: present and not made only of blank characters, so in
      particular not empty; a string that starts with a visible character
      passes. */
  function NotBlank(s: Option<string>): (b: bool)
    ensures b ==> s.Some? && |s.value| > 0
    ensures s.Some? && |s.value| > 0 && !IsBlankChar(s.value[0]) ==> b
  {
    s.Some? && exists i :: 0 <= i < |s.value| && !IsBlankChar(s.value[i])
  }

  /** A request that passes every field constraint (`notes` has none): it is
      valid exactly when it breaks no constraint. */
  function IsValid(r: ExpenseRequest): (b: bool)
    ensures b <==> Violations(r) == {}
  {
    && NotBlank(r.description)
    && r.amount.Some? && r.amount.value > 0.0
    && r.category.Some?
    && r.expenseDate.Some?
  }

  /** One failed constraint. */
  datatype Violation =
    | DescriptionRequired
    | AmountRequired
    | AmountNotPositive
    | CategoryRequired
    | DateRequired

  /** The message each constraint reports, given by definition; no two
      constraints share one. */
  function Message(v: Violation): string {
    match v
    case DescriptionRequired => "Description is required"
    case AmountRequired => "Amount is required"
    case AmountNotPositive => "Amount must be positive"
    case CategoryRequired => "Category is required"
    case DateRequired => "Date is required"
  }

  /** A reported message names the constraint that failed. */
  lemma MessagesDistinct(a: Violation, b: Violation)
    ensures Message(a) == Message(b) ==> a == b
  {
  }

  /** The set of constraints a request breaks. `@Positive` accepts `null`, so
      a missing amount breaks only `@NotNull`. */
  function Violations(r: ExpenseRequest): (vs: set<Violation>)
    ensures DescriptionRequired in vs <==> !NotBlank(r.description)
    ensures AmountRequired in vs <==> r.amount.None?
    ensures AmountNotPositive in vs <==> r.amount.Some? && r.amount.value <= 0.0
    ensures CategoryRequired in vs <==> r.category.None?
    ensures DateRequired in vs <==> r.expenseDate.None?
    ensures !(AmountRequired in vs && AmountNotPositive in vs)
  {
    (if NotBlank(r.description) then {} else {DescriptionRequired})
    + (if r.amount.None? then {AmountRequired} else {})
    + (if r.amount.Some? && r.amount.value <= 0.0 then {AmountNotPositive} else {})
    + (if r.category.None? then {CategoryRequired} else {})
    + (if r.expenseDate.None? then {DateRequired} else {})
  }

  /** A description of blanks only, the empty one included, is refused. */
  lemma WhitespaceDescriptionRejected(r: ExpenseRequest)
    requires r.description.Some?
    requires forall i :: 0 <= i < |r.description.value| ==> IsBlankChar(r.description.value[i])
    ensures !IsValid(r) && DescriptionRequired in Violations(r)
  {
  }

  /** A description with a visible character anywhere, not only first, is
      accepted: `"  Lunch"` passes as `"Lunch"` does. */
  lemma VisibleDescriptionAccepted(r: ExpenseRequest)
    requires r.description.Some?
    requires exists i :: 0 <= i < |r.description.value| && !IsBlankChar(r.description.value[i])
    ensures NotBlank(r.description) && DescriptionRequired !in Violations(r)
  {
  }
}
