/** The canonical value maps, the two normalizers built on them, and the trick by which the service
    recovers the `was_mapped` flag that the adapters throw away. */
module CanonicalValues {
  import opened Text
  import opened Wrappers

  const DEPARTMENT_CANONICAL: map<string, string> := map[
    "eng" := "Engineering",
    "engineering" := "Engineering",
    "software engineering" := "Engineering",
    "r&d" := "Engineering",
    "product development" := "Engineering",
    "fin" := "Finance",
    "finance" := "Finance",
    "accounting" := "Finance",
    "hr" := "Human Resources",
    "human resources" := "Human Resources",
    "people ops" := "Human Resources",
    "it" := "Information Technology",
    "information technology" := "Information Technology",
    "infra" := "Information Technology",
    "sales" := "Sales",
    "revenue" := "Sales",
    "mktg" := "Marketing",
    "marketing" := "Marketing"
  ]

  const EMPLOYEE_TYPE_CANONICAL: map<string, string> := map[
    "fte" := "FTE",
    "e" := "FTE",
    "employee" := "FTE",
    "full-time" := "FTE",
    "full time" := "FTE",
    "regular" := "FTE",
    "contractor" := "contractor",
    "c" := "contractor",
    "contract" := "contractor",
    "contingent" := "contractor",
    "temp" := "contractor",
    "vendor" := "vendor",
    "v" := "vendor",
    "external" := "vendor",
    "partner" := "vendor",
    "third-party" := "vendor"
  ]

  const EMPLOYEE_TYPES: set<string> := {"FTE", "contractor", "vendor"}

  /** The form under which a raw value is looked up: `value.strip().lower()`. */
  function Key(value: string): string {
    Lower(Strip(value))
  }

  /** `normalize_department` on a string: the canonical name and whether the table knew the value. */
  function NormalizeDepartment(value: string): (string, bool) {
    if Key(value) in DEPARTMENT_CANONICAL then (DEPARTMENT_CANONICAL[Key(value)], true)
    else (Title(Strip(value)), false)
  }

  /** `normalize_department_value`: the canonical name alone, which is all an adapter keeps. */
  function Department(value: string): string {
    NormalizeDepartment(value).0
  }

  /** `normalize_employee_type` on a string: one of the three literals, or the value is dropped. */
  function NormalizeEmployeeType(value: string): (r: Option<string>)
    ensures r.Some? ==> r.value in EMPLOYEE_TYPES
  {
    if Key(value) in EMPLOYEE_TYPE_CANONICAL then Some(EMPLOYEE_TYPE_CANONICAL[Key(value)]) else None
  }

  /** `_was_department_mapped`: guesses the lost flag from an already normalized value. */
  predicate WasDepartmentMapped(normalized: string) {
    Key(normalized) in DEPARTMENT_CANONICAL && DEPARTMENT_CANONICAL[Key(normalized)] == normalized
  }

  // ---- the table ------------------------------------------------------------------------------

  predicate SameLetters(name: string, key: string) {
    |name| == |key| && forall i :: 0 <= i < |name| ==> LowerChar(name[i]) == key[i]
  }

  lemma KeyIs(name: string, key: string)
    requires Trimmed(name) && SameLetters(name, key)
    ensures Key(name) == key
  {
    StripTrims(name);
    LowerPointwise(name);
  }

  /** The key that is the lower-case spelling of a canonical name. */
  function OwnKey(name: string): string {
    if name == "Engineering" then "engineering"
    else if name == "Finance" then "finance"
    else if name == "Human Resources" then "human resources"
    else if name == "Information Technology" then "information technology"
    else if name == "Sales" then "sales"
    else "marketing"
  }

  lemma ShortNamesFold()
    ensures SameLetters("Engineering", "engineering")
    ensures SameLetters("Finance", "finance")
    ensures SameLetters("Sales", "sales")
    ensures SameLetters("Marketing", "marketing")
  {
  }

  lemma LongNamesFold()
    ensures SameLetters("Human Resources", "human resources")
    ensures SameLetters("Information Technology", "information technology")
  {
  }

  lemma OwnKeyHasSameLetters(key: string)
    requires key in DEPARTMENT_CANONICAL
    ensures var name := DEPARTMENT_CANONICAL[key]; Trimmed(name) && SameLetters(name, OwnKey(name))
  {
    ShortNamesFold();
    LongNamesFold();
  }

  lemma OwnKeyIsAlias(key: string)
    requires key in DEPARTMENT_CANONICAL
    ensures var name := DEPARTMENT_CANONICAL[key];
      OwnKey(name) in DEPARTMENT_CANONICAL && DEPARTMENT_CANONICAL[OwnKey(name)] == name
  {
  }

  /** Every canonical department name is, folded to a key, an alias of itself. */
  lemma CanonicalNamesAreFixed(key: string)
    requires key in DEPARTMENT_CANONICAL
    ensures WasDepartmentMapped(DEPARTMENT_CANONICAL[key])
  {
    OwnKeyHasSameLetters(key);
    OwnKeyIsAlias(key);
    KeyIs(DEPARTMENT_CANONICAL[key], OwnKey(DEPARTMENT_CANONICAL[key]));
  }

  lemma KeyOfTitle(value: string)
    ensures Strip(Title(Strip(value))) == Title(Strip(value))
    ensures Key(Title(Strip(value))) == Key(value)
  {
    StripTrims(value);
    TitleIsTrimmed(Strip(value));
    StripTrims(Title(Strip(value)));
    LowerOfTitle(Strip(value));
  }

  // ---- laws -----------------------------------------------------------------------------------

  /** The recovered flag is exactly the one that was thrown away. */
  lemma FlagIsRecovered(value: string)
    requires Ascii(value)
    ensures WasDepartmentMapped(NormalizeDepartment(value).0) == NormalizeDepartment(value).1
  {
    if Key(value) in DEPARTMENT_CANONICAL {
      CanonicalNamesAreFixed(Key(value));
    } else {
      KeyOfTitle(value);
    }
  }

  lemma OwnKeyIsAscii(name: string)
    ensures Ascii(OwnKey(name))
  {
  }

  lemma SameLettersAreAscii(name: string, key: string)
    requires SameLetters(name, key) && Ascii(key)
    ensures Ascii(name)
  {
    assert forall i :: 0 <= i < |name| ==> LowerChar(name[i]) as int < 128;
  }

  lemma NamesAreAscii(key: string)
    requires key in DEPARTMENT_CANONICAL
    ensures Ascii(DEPARTMENT_CANONICAL[key])
  {
    var name := DEPARTMENT_CANONICAL[key];
    OwnKeyHasSameLetters(key);
    OwnKeyIsAscii(name);
    SameLettersAreAscii(name, OwnKey(name));
  }

  lemma DepartmentIsAscii(value: string)
    requires Ascii(value)
    ensures Ascii(Department(value))
  {
    if Key(value) in DEPARTMENT_CANONICAL {
      NamesAreAscii(Key(value));
    } else {
      TitleKeepsAscii(value);
    }
  }

  /** A value that the table does not know is trimmed and set in title case, letter by letter. */
  lemma UnknownIsTitled(value: string, i: nat)
    requires Key(value) !in DEPARTMENT_CANONICAL && i < |Strip(value)|
    ensures var kept := Strip(value);
      && Trimmed(kept) && |Department(value)| == |kept|
      && Department(value)[i]
         == if i > 0 && IsCased(kept[i - 1]) then LowerChar(kept[i]) else UpperChar(kept[i])
  {
    StripTrims(value);
    TitleAt(false, Strip(value), i);
  }

  lemma DepartmentIsIdempotent(value: string)
    requires Ascii(value)
    ensures Department(Department(value)) == Department(value)
  {
    if Key(value) in DEPARTMENT_CANONICAL {
      CanonicalNamesAreFixed(Key(value));
    } else {
      KeyOfTitle(value);
      TitleIsIdempotent(Strip(value));
    }
  }

  /** Two raw values are the same department exactly when they fold to one key or are two aliases
      of one canonical name. */
  ghost predicate SameDepartment(a: string, b: string) {
    || Key(a) == Key(b)
    || (&& Key(a) in DEPARTMENT_CANONICAL && Key(b) in DEPARTMENT_CANONICAL
        && DEPARTMENT_CANONICAL[Key(a)] == DEPARTMENT_CANONICAL[Key(b)])
  }

  lemma DepartmentsAgreeIff(a: string, b: string)
    requires Ascii(a) && Ascii(b)
    ensures Department(a) == Department(b) <==> SameDepartment(a, b)
  {
    KeyOfTitle(a);
    KeyOfTitle(b);
    if Key(a) == Key(b) {
      TitleOfLower(false, Strip(a));
      TitleOfLower(false, Strip(b));
    } else if Department(a) == Department(b) {
      // an unmapped value keeps its key, so it never meets a canonical name
      if Key(a) in DEPARTMENT_CANONICAL { CanonicalNamesAreFixed(Key(a)); }
      if Key(b) in DEPARTMENT_CANONICAL { CanonicalNamesAreFixed(Key(b)); }
    }
  }

  /** A department stays the department of the text it was made from. */
  lemma DepartmentIsKept(value: string)
    requires Ascii(value)
    ensures Department(Department(value)) == Department(value) && SameDepartment(Department(value), value)
  {
    DepartmentIsIdempotent(value);
    DepartmentIsAscii(value);
    DepartmentsAgreeIff(Department(value), value);
  }

  /** Changing case, or padding with white space, never changes the department. */
  lemma CaseAndPaddingDoNotMatter(before: string, value: string, after: string, spelled: string)
    requires Ascii(before + spelled + after) && Ascii(value)
    requires forall c :: c in before + after ==> IsSpace(c)
    requires Trimmed(spelled) && Lower(spelled) == Key(value)
    ensures NormalizeDepartment(before + spelled + after) == NormalizeDepartment(value)
    ensures NormalizeEmployeeType(before + spelled + after) == NormalizeEmployeeType(value)
  {
    StripPadding(before, spelled, after);
    TitleOfLower(false, spelled);
    TitleOfLower(false, Strip(value));
  }

  /** The key that is the lower-case spelling of a literal. */
  function LiteralKey(literal: string): string {
    if literal == "FTE" then "fte" else literal
  }

  lemma LiteralFolds(literal: string)
    requires literal in EMPLOYEE_TYPES
    ensures Trimmed(literal) && SameLetters(literal, LiteralKey(literal))
  {
  }

  lemma LiteralIsAlias(literal: string)
    requires literal in EMPLOYEE_TYPES
    ensures LiteralKey(literal) in EMPLOYEE_TYPE_CANONICAL && EMPLOYEE_TYPE_CANONICAL[LiteralKey(literal)] == literal
  {
  }

  /** The literals are their own employee types. */
  lemma LiteralsAreFixed(literal: string)
    requires literal in EMPLOYEE_TYPES
    ensures NormalizeEmployeeType(literal) == Some(literal)
  {
    LiteralFolds(literal);
    LiteralIsAlias(literal);
    KeyIs(literal, LiteralKey(literal));
  }
}
