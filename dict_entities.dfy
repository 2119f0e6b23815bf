/**
 * The accessor classes of the dictionary-based invoice revision: `Entity`,
 * `Author`, `Therapist` and `Patient` read the request dictionary directly.
 * The dictionaries are modelled with text values; reading a key that is not
 * there raises `KeyError`, so each accessor requires the keys it reads, which
 * the schema check guarantees for every schema key. The patient's birth date
 * arrives already formatted.
 */
module DictEntities {
  import opened Wrappers
  import Text

  type Dict = map<string, string>

  /** `Entity.GLN`: the same placeholder number for every author and therapist. */
  function Gln(e: Dict): (r: string)
    ensures |r| == 13
  {
    "2099999999999"
  }

  function Rcc(e: Dict): string
    requires "RCC" in e
  {
    e["RCC"]
  }

  /** `Entity.address`: street, ` · `, ZIP, one space, city. */
  function Address(e: Dict): string
    requires "street" in e && "ZIP" in e && "city" in e
  {
    e["street"] + " · " + e["ZIP"] + " " + e["city"]
  }

  function Phone(e: Dict): string
    requires "phone" in e
  {
    e["phone"]
  }

  function AuthorName(a: Dict): string
    requires "name" in a
  {
    a["name"]
  }

  function AuthorEmail(a: Dict): string
    requires "email" in a
  {
    a["email"]
  }

  /** `Author.IBAN`: not yet provided, always empty. */
  function AuthorIban(a: Dict): string
  {
    ""
  }

  function AuthorStreet(a: Dict): string
    requires "street" in a
  {
    a["street"]
  }

  /** `Author.ZIP_city`: ZIP, one space, city. */
  function AuthorZipCity(a: Dict): string
    requires "ZIP" in a && "city" in a
  {
    a["ZIP"] + " " + a["city"]
  }

  /** `Author.ESR_coding_line`: the `ESR` entry when there is one, `None` otherwise. */
  function EsrCodingLine(a: Dict): (r: Option<string>)
    ensures r.Some? <==> "ESR" in a
    ensures r.Some? ==> r.value == a["ESR"]
  {
    if "ESR" in a then Some(a["ESR"]) else None
  }

  /** `Therapist.name`: first name, one space, last name. */
  function TherapistName(t: Dict): string
    requires "firstName" in t && "lastName" in t
  {
    t["firstName"] + " " + t["lastName"]
  }

  datatype Patient = Patient(dict: Dict, birthdate: string)

  /** `Patient.gender`: `H` for `male`, `F` for anything else. */
  function Gender(p: Patient): string
    requires "gender" in p.dict
  {
    if p.dict["gender"] == "male" then "H" else "F"
  }

  /** `Patient.names`: first name, one space, last name. */
  function Names(p: Patient): string
    requires "firstName" in p.dict && "lastName" in p.dict
  {
    p.dict["firstName"] + " " + p.dict["lastName"]
  }

  /** `Patient.ZIP_city` */
  function PatientZipCity(p: Patient): string
    requires "ZIP" in p.dict && "city" in p.dict
  {
    p.dict["ZIP"] + " " + p.dict["city"]
  }

  /** `Patient.SSN`: the `SSN` entry when there is one, `None` otherwise. */
  function Ssn(p: Patient): (r: Option<string>)
    ensures r.Some? <==> "SSN" in p.dict
    ensures r.Some? ==> r.value == p.dict["SSN"]
  {
    if "SSN" in p.dict then Some(p.dict["SSN"]) else None
  }

  /** Both entities carry the same 13-character placeholder GLN. */
  lemma GlnIsConstant(e: Dict, f: Dict)
    ensures Gln(e) == Gln(f) == "2099999999999"
  {
  }

  /** `gender` is `H` exactly for `male`, and never anything but `H` or `F`. */
  lemma GenderCode(p: Patient)
    requires "gender" in p.dict
    ensures Gender(p) == "H" <==> p.dict["gender"] == "male"
    ensures Gender(p) == "H" || Gender(p) == "F"
  {
  }

  /**
   * `address` is the street, ` · ` and the `ZIP_city` line; with no middle dot
   * in the street, splitting at the first one gives both back.
   */
  lemma AddressParts(a: Dict)
    requires "street" in a && "ZIP" in a && "city" in a
    ensures Address(a) == AuthorStreet(a) + " · " + AuthorZipCity(a)
    ensures '·' !in a["street"] ==>
      Text.Partition(Address(a), '·') == (a["street"] + " ", " " + AuthorZipCity(a))
  {
    if '·' !in a["street"] {
      assert Address(a) == (a["street"] + " ") + ['·'] + (" " + AuthorZipCity(a));
      Text.PartitionJoin(a["street"] + " ", " " + AuthorZipCity(a), '·');
    }
  }

  /** The two-part names give their parts back when the first name has no space. */
  lemma NamesParts(p: Patient, t: Dict)
    requires "firstName" in p.dict && "lastName" in p.dict
    requires "firstName" in t && "lastName" in t
    ensures ' ' !in p.dict["firstName"] ==>
      Text.Partition(Names(p), ' ') == (p.dict["firstName"], p.dict["lastName"])
    ensures ' ' !in t["firstName"] ==>
      Text.Partition(TherapistName(t), ' ') == (t["firstName"], t["lastName"])
  {
    if ' ' !in p.dict["firstName"] { Text.PartitionJoin(p.dict["firstName"], p.dict["lastName"], ' '); }
    if ' ' !in t["firstName"] { Text.PartitionJoin(t["firstName"], t["lastName"], ' '); }
  }
}
