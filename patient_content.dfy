/**
 * The text the invoice shows for its patient. The birth date arrives already
 * formatted as `dd.mm.yyyy`.
 */
module PatientContent {
  import opened Wrappers
  import Text

  datatype Patient = Patient(
    firstname: string,
    lastname: string,
    street: string,
    zipcode: string,
    city: string,
    birthdate: string,
    gender: string,
    canton: string,
    email: string)

  /** `gender`: `H` for a stored `man`, `F` for anything else. */
  function Gender(p: Patient): string
  {
    if p.gender == "man" then "H" else "F"
  }

  /** `name`: first name, one space, last name. */
  function Name(p: Patient): string
  {
    p.firstname + " " + p.lastname
  }

  /** `zip_city`: ZIP code, one space, city. */
  function ZipCity(p: Patient): string
  {
    p.zipcode + " " + p.city
  }

  /** `ssn`: the social security number is always left empty. */
  function Ssn(p: Patient): string
  {
    ""
  }

  const BirthdateHeader: string := "Date de naissance "

  /** `birthdate_with_header_and_gender` */
  function BirthdateWithHeaderAndGender(p: Patient): string
  {
    BirthdateHeader + p.birthdate + "/" + Gender(p)
  }

  /**
   * The properties a patient content object has, by name; `None` for any
   * other name, which Python answers with `AttributeError`.
   */
  function Attribute(p: Patient, attr: string): (r: Option<string>)
    ensures r.Some? <==> attr in PropertyNames
  {
    if attr == "first_name" then Some(p.firstname)
    else if attr == "last_name" then Some(p.lastname)
    else if attr == "street" then Some(p.street)
    else if attr == "zip" then Some(p.zipcode)
    else if attr == "city" then Some(p.city)
    else if attr == "birthdate" then Some(p.birthdate)
    else if attr == "gender" then Some(Gender(p))
    else if attr == "canton" then Some(p.canton)
    else if attr == "name" then Some(Name(p))
    else if attr == "zip_city" then Some(ZipCity(p))
    else if attr == "email" then Some(p.email)
    else if attr == "birthdate_with_header_and_gender" then Some(BirthdateWithHeaderAndGender(p))
    else if attr == "ssn" then Some(Ssn(p))
    else None
  }

  const PropertyNames: seq<string> := [
    "first_name", "last_name", "street", "zip", "city", "birthdate", "gender", "canton", "name",
    "zip_city", "email", "birthdate_with_header_and_gender", "ssn"]

  /** There is a `birthdate` property but no `birthday` one. */
  lemma NoBirthdayProperty(p: Patient)
    ensures Attribute(p, "birthday") == None
    ensures Attribute(p, "birthdate") == Some(p.birthdate)
  {
  }

  /** `gender` only ever yields `H` or `F`, and `H` exactly for `man`. */
  lemma GenderCode(p: Patient)
    ensures Gender(p) == "H" || Gender(p) == "F"
    ensures Gender(p) == "H" <==> p.gender == "man"
  {
  }

  /**
   * The request model accepts only `male` and `female`, and neither of them is
   * `man`: a patient whose gender comes straight from a request gets `F`.
   * This content revision also reads `firstname` and `zipcode`, which the
   * patient request model does not define, so it was written against another
   * revision of that model; the mismatch is stated here, not claimed as a bug.
   */
  lemma RequestGendersGiveF(p: Patient)
    requires p.gender == "male" || p.gender == "female"
    ensures Gender(p) == "F"
  {
  }

  /** `name` is one character longer than the two names, and gives them back when the first has no space. */
  lemma NameParts(p: Patient)
    ensures |Name(p)| == |p.firstname| + 1 + |p.lastname|
    ensures ' ' !in p.firstname ==> Text.Partition(Name(p), ' ') == (p.firstname, p.lastname)
  {
    if ' ' !in p.firstname { Text.PartitionJoin(p.firstname, p.lastname, ' '); }
  }

  /** `zip_city` gives back ZIP code and city when the ZIP code has no space. */
  lemma ZipCityParts(p: Patient)
    ensures |ZipCity(p)| == |p.zipcode| + 1 + |p.city|
    ensures ' ' !in p.zipcode ==> Text.Partition(ZipCity(p), ' ') == (p.zipcode, p.city)
  {
    if ' ' !in p.zipcode { Text.PartitionJoin(p.zipcode, p.city, ' '); }
  }

  /**
   * The line is the 18-character header, the birth date, a slash and the
   * one-letter gender code; a birth date without a slash is recovered by
   * splitting the rest at the first slash.
   */
  lemma BirthdateLineParts(p: Patient)
    ensures |BirthdateHeader| == 18
    ensures var r := BirthdateWithHeaderAndGender(p);
      && r[..18] == "Date de naissance "
      && r[|r| - 1..] == Gender(p)
      && ('/' !in p.birthdate ==> Text.Partition(r[18..], '/') == (p.birthdate, Gender(p)))
  {
    var r := BirthdateWithHeaderAndGender(p);
    GenderCode(p);
    assert r[18..] == p.birthdate + ['/'] + Gender(p);
    if '/' !in p.birthdate { Text.PartitionJoin(p.birthdate, Gender(p), '/'); }
  }

  /** No patient ever has a social security number on the invoice. */
  lemma SsnAlwaysEmpty(p: Patient)
    ensures Ssn(p) == "" && Attribute(p, "ssn") == Some("")
  {
  }
}
