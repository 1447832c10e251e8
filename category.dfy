/** The closed catalogue of spending categories with their display metadata. */
module Categories {
  import opened Results

  /** The ten categories, in declaration order. */
  datatype Category =
    | FOOD
    | TRANSPORT
    | ENTERTAINMENT
    | EDUCATION
    | SHOPPING
    | UTILITIES
    | HEALTH
    | HOUSING
    | PERSONAL
    | OTHER

  /** `Category.values()`: every category, in declaration order. */
  const Values: seq<Category> :=
    [FOOD, TRANSPORT, ENTERTAINMENT, EDUCATION, SHOPPING, UTILITIES, HEALTH, HOUSING, PERSONAL, OTHER]

  /** `getDisplayName`: a non-empty label that starts with a capital. */
  function DisplayName(c: Category): (r: string)
    ensures |r| > 0 && 'A' <= r[0] <= 'Z'
  {
    match c
    case FOOD => "Food & Dining"
    case TRANSPORT => "Transportation"
    case ENTERTAINMENT => "Entertainment"
    case EDUCATION => "Education & Books"
    case SHOPPING => "Shopping"
    case UTILITIES => "Utilities & Bills"
    case HEALTH => "Health & Medical"
    case HOUSING => "Housing & Rent"
    case PERSONAL => "Personal Care"
    case OTHER => "Other"
  }

  /** `getColor`: a CSS colour `#RRGGBB`. */
  function Color(c: Category): (r: string)
    ensures IsHexColor(r)
  {
    match c
    case FOOD => "#FF6384"
    case TRANSPORT => "#36A2EB"
    case ENTERTAINMENT => "#FFCE56"
    case EDUCATION => "#4BC0C0"
    case SHOPPING => "#9966FF"
    case UTILITIES => "#FF9F40"
    case HEALTH => "#FF6384"
    case HOUSING => "#C9CBCF"
    case PERSONAL => "#7BC8A4"
    case OTHER => "#999999"
  }

  /** The category whose display name is `name`, if there is one: display
      names identify categories, so a map keyed by display name loses
      nothing. */
  function FromDisplayName(name: string): (r: Option<Category>)
    ensures r.Some? ==> DisplayName(r.value) == name
    ensures r.None? ==> forall c :: DisplayName(c) != name
  {
    if name == "Food & Dining" then Some(FOOD)
    else if name == "Transportation" then Some(TRANSPORT)
    else if name == "Entertainment" then Some(ENTERTAINMENT)
    else if name == "Education & Books" then Some(EDUCATION)
    else if name == "Shopping" then Some(SHOPPING)
    else if name == "Utilities & Bills" then Some(UTILITIES)
    else if name == "Health & Medical" then Some(HEALTH)
    else if name == "Housing & Rent" then Some(HOUSING)
    else if name == "Personal Care" then Some(PERSONAL)
    else if name == "Other" then Some(OTHER)
    else None
  }

  /** Looking a category up by its own display name gives it back. */
  lemma FromDisplayNameInverse(c: Category)
    ensures FromDisplayName(DisplayName(c)) == Some(c)
  {
  }

  /** No two categories share a display name. */
  lemma DisplayNameInjective(a: Category, b: Category)
    ensures DisplayName(a) == DisplayName(b) ==> a == b
  {
    FromDisplayNameInverse(a);
    FromDisplayNameInverse(b);
  }

  /** Colours are not unique: food and health share one. */
  lemma ColorNotInjective()
    ensures FOOD != HEALTH && Color(FOOD) == Color(HEALTH)
  {
  }

  predicate IsHexDigit(ch: char) {
    '0' <= ch <= '9' || 'A' <= ch <= 'F' || 'a' <= ch <= 'f'
  }

  /** A CSS colour of the form `#RRGGBB`. */
  predicate IsHexColor(s: string) {
    |s| == 7 && s[0] == '#' && forall i :: 1 <= i < 7 ==> IsHexDigit(s[i])
  }

  /** `values()` lists each of the ten categories exactly once. */
  lemma ValuesEnumerateAll()
    ensures |Values| == 10
    ensures forall c :: c in Values
    ensures forall i, j :: 0 <= i < j < |Values| ==> Values[i] != Values[j]
  {
    forall c ensures c in Values {
      var i := match c
        case FOOD => 0 case TRANSPORT => 1 case ENTERTAINMENT => 2 case EDUCATION => 3
        case SHOPPING => 4 case UTILITIES => 5 case HEALTH => 6 case HOUSING => 7
        case PERSONAL => 8 case OTHER => 9;
      assert Values[i] == c;
    }
  }
}
