/**
 * The patient request model: per-field constraints, the canton and gender
 * enumerations, the raw-birthday pre-validator and the root validator that
 * bounds the combined name. The root validator sees only the fields that
 * passed their own constraint, so a name already refused on its own never
 * takes part in the combined bound. E-mail syntax is checked by a foreign
 * validator, passed in as `isEmail`; the birthday is the raw timestamp
 * before it is turned into a date.
 */
module PatientModel {
  import opened Wrappers
  import opened FieldRules

  datatype Input = Input(
    firstName: Option<string>,
    lastName: Option<string>,
    street: Option<string>,
    ZIP: Option<string>,
    city: Option<string>,
    canton: Option<string>,
    birthday: Option<int>,
    gender: Option<string>,
    email: Option<string>)

  /** The patient's fields, in declaration order. */
  datatype Field = FirstName | LastName | Street | Zip | City | Canton | Birthday | Gender | Email

  const Fields: seq<Field> := [FirstName, LastName, Street, Zip, City, Canton, Birthday, Gender, Email]

  /** What validation reports: a field that fails its own constraint, or the combined-name bound. */
  datatype Issue = FieldIssue(field: Field) | NameTooLong

  /** The Swiss cantons, Liechtenstein and the four neighbouring countries accepted as `canton`. */
  const Cantons: seq<string> := [
    "AG", "AI", "AR", "BE", "BL", "BS", "FR", "GE", "GL", "GR", "JU", "LU", "NE", "NW", "OW", "SG",
    "SH", "SO", "SZ", "TI", "TG", "UR", "VD", "VS", "ZG", "ZH", "LI", "A", "D", "F", "I"]

  const Genders: seq<string> := ["male", "female"]

  /** The longest combined `first last` name the root validator lets through. */
  const MaxFullNameLength: nat := 70

  predicate FieldValid(p: Input, f: Field, isEmail: string -> bool)
  {
    match f
    case FirstName => LengthWithin(p.firstName, 1, 35)
    case LastName => LengthWithin(p.lastName, 1, 35)
    case Street => LengthWithin(p.street, 1, 35)
    case Zip => LengthWithin(p.ZIP, 1, 9)
    case City => LengthWithin(p.city, 1, 35)
    case Canton => p.canton.Some? && p.canton.value in Cantons
    case Birthday => p.birthday.Some? && CheckValidPydanticDate(p.birthday.value)
    case Gender => p.gender.Some? && p.gender.value in Genders
    case Email => p.email.Some? && isEmail(p.email.value)
  }

  /**
   * `check_name`: raised when both names reached the root validator (present
   * and valid on their own) and `first + " " + last` is longer than 70.
   */
  predicate CheckNameRaises(p: Input, isEmail: string -> bool)
  {
    FieldValid(p, FirstName, isEmail) && FieldValid(p, LastName, isEmail)
    && |p.firstName.value + " " + p.lastName.value| > MaxFullNameLength
  }

  /** Everything validation reports: the failing fields in declaration order, then the root error. */
  function Errors(p: Input, isEmail: string -> bool): seq<Issue>
  {
    FieldIssues(FieldErrors(p, isEmail)) + (if CheckNameRaises(p, isEmail) then [NameTooLong] else [])
  }

  /** The fields that fail their own constraint, in declaration order. */
  function FieldErrors(p: Input, isEmail: string -> bool): seq<Field>
  {
    Failing(Fields, f => FieldValid(p, f, isEmail))
  }

  function FieldIssues(fs: seq<Field>): (r: seq<Issue>)
    ensures |r| == |fs| && forall i :: 0 <= i < |fs| ==> r[i] == FieldIssue(fs[i])
  {
    seq(|fs|, i requires 0 <= i < |fs| => FieldIssue(fs[i]))
  }

  function FieldIndex(f: Field): (i: nat)
    ensures i < |Fields| && Fields[i] == f
  {
    match f
    case FirstName => 0 case LastName => 1 case Street => 2 case Zip => 3 case City => 4
    case Canton => 5 case Birthday => 6 case Gender => 7 case Email => 8
  }

  /** A field is reported exactly when it fails its own constraint. */
  lemma ErrorsExactly(p: Input, f: Field, isEmail: string -> bool)
    ensures FieldIssue(f) !in Errors(p, isEmail) <==> FieldValid(p, f, isEmail)
  {
    FieldErrorsExactly(p, f, isEmail);
    var fs := FieldErrors(p, isEmail);
    assert FieldIssue(f) in FieldIssues(fs) <==> f in fs by {
      if f in fs {
        var i :| 0 <= i < |fs| && fs[i] == f;
        assert FieldIssues(fs)[i] == FieldIssue(f);
      }
    }
  }

  lemma FieldErrorsExactly(p: Input, f: Field, isEmail: string -> bool)
    ensures f !in FieldErrors(p, isEmail) <==> FieldValid(p, f, isEmail)
  {
    assert Fields[FieldIndex(f)] == f;
    FailingMembers(Fields, f' => FieldValid(p, f', isEmail), f);
  }

  /**
   * With both names valid on their own, the combined bound is refused exactly
   * when the lengths add up to more than 69, which for two names of at most 35
   * characters happens only when both have exactly 35.
   */
  lemma CombinedNameRule(p: Input, isEmail: string -> bool)
    requires FieldValid(p, FirstName, isEmail) && FieldValid(p, LastName, isEmail)
    ensures NameTooLong in Errors(p, isEmail) <==> |p.firstName.value| + |p.lastName.value| > 69
    ensures NameTooLong in Errors(p, isEmail) <==> |p.firstName.value| == 35 && |p.lastName.value| == 35
  {
    NameTooLongOnlyFromRoot(p, isEmail);
  }

  /** A name missing or refused on its own never also triggers the combined bound. */
  lemma CombinedNameNeedsBothNames(p: Input, isEmail: string -> bool)
    requires !FieldValid(p, FirstName, isEmail) || !FieldValid(p, LastName, isEmail)
    ensures NameTooLong !in Errors(p, isEmail)
  {
    NameTooLongOnlyFromRoot(p, isEmail);
  }

  lemma NameTooLongOnlyFromRoot(p: Input, isEmail: string -> bool)
    ensures NameTooLong in Errors(p, isEmail) <==> CheckNameRaises(p, isEmail)
  {
    assert NameTooLong !in FieldIssues(FieldErrors(p, isEmail));
  }

  /** `canton` only accepts the 31 listed codes. */
  lemma CantonAsDeclared(p: Input, isEmail: string -> bool)
    ensures |Cantons| == 31
    ensures FieldIssue(Canton) !in Errors(p, isEmail) <==> p.canton.Some? && p.canton.value in Cantons
  {
    ErrorsExactly(p, Canton, isEmail);
    FieldConstraints(p, isEmail);
  }

  /** `gender` only accepts `male` or `female`. */
  lemma GenderAsDeclared(p: Input, isEmail: string -> bool)
    ensures FieldIssue(Gender) !in Errors(p, isEmail) <==>
      p.gender.Some? && (p.gender.value == "male" || p.gender.value == "female")
  {
    ErrorsExactly(p, Gender, isEmail);
    FieldConstraints(p, isEmail);
  }

  /** A raw birthday below -2·10^10 is refused; any other present value passes the pre-validator. */
  lemma BirthdayBound(p: Input, isEmail: string -> bool)
    ensures FieldIssue(Birthday) !in Errors(p, isEmail) <==>
      p.birthday.Some? && p.birthday.value >= -20000000000
  {
    ErrorsExactly(p, Birthday, isEmail);
    FieldConstraints(p, isEmail);
  }

  /** First name, last name, street and city are accepted with 1..35 characters; ZIP with 1..9. */
  lemma LengthBounds(p: Input, isEmail: string -> bool)
    ensures FieldIssue(FirstName) !in Errors(p, isEmail) <==> p.firstName.Some? && 1 <= |p.firstName.value| <= 35
    ensures FieldIssue(LastName) !in Errors(p, isEmail) <==> p.lastName.Some? && 1 <= |p.lastName.value| <= 35
    ensures FieldIssue(Street) !in Errors(p, isEmail) <==> p.street.Some? && 1 <= |p.street.value| <= 35
    ensures FieldIssue(City) !in Errors(p, isEmail) <==> p.city.Some? && 1 <= |p.city.value| <= 35
    ensures FieldIssue(Zip) !in Errors(p, isEmail) <==> p.ZIP.Some? && 1 <= |p.ZIP.value| <= 9
  {
    ErrorsExactly(p, FirstName, isEmail);
    ErrorsExactly(p, LastName, isEmail);
    ErrorsExactly(p, Street, isEmail);
    ErrorsExactly(p, City, isEmail);
    ErrorsExactly(p, Zip, isEmail);
    FieldConstraints(p, isEmail);
  }

  /** Each field's own constraint, one case of `FieldValid` at a time. */
  lemma FieldConstraints(p: Input, isEmail: string -> bool)
    ensures FieldValid(p, FirstName, isEmail) == LengthWithin(p.firstName, 1, 35)
    ensures FieldValid(p, LastName, isEmail) == LengthWithin(p.lastName, 1, 35)
    ensures FieldValid(p, Street, isEmail) == LengthWithin(p.street, 1, 35)
    ensures FieldValid(p, City, isEmail) == LengthWithin(p.city, 1, 35)
    ensures FieldValid(p, Zip, isEmail) == LengthWithin(p.ZIP, 1, 9)
    ensures FieldValid(p, Canton, isEmail) == (p.canton.Some? && p.canton.value in Cantons)
    ensures FieldValid(p, Gender, isEmail) == (p.gender.Some? && (p.gender.value == "male" || p.gender.value == "female"))
    ensures FieldValid(p, Birthday, isEmail) == (p.birthday.Some? && p.birthday.value >= -20000000000)
  {
  }
}
