/**
 * The text the invoice shows for an author or a therapist: the placeholder
 * GLN, the RCC, and the address lines built from street, ZIP and city.
 */
module EntityContent {
  import opened Wrappers
  import Text
  import Pattern

  /** The fields of an author or therapist the accessors read. */
  datatype Entity = Entity(street: string, ZIP: string, city: string, phone: string, RCC: Option<string>)

  /** `gln`: the same placeholder number for every entity. */
  function Gln(e: Entity): (r: string)
    ensures |r| == 13 && Pattern.AllDigits(r)
  {
    "2099999999999"
  }

  /** `rcc`: the optional RCC, passed through. */
  function Rcc(e: Entity): Option<string>
  {
    e.RCC
  }

  function Street(e: Entity): string
  {
    e.street
  }

  function Phone(e: Entity): string
  {
    e.phone
  }

  /** `zip_city`: ZIP, one space, city. */
  function ZipCity(e: Entity): string
  {
    e.ZIP + " " + e.city
  }

  /** `address`: street, ` · `, then the ZIP-and-city line. */
  function Address(e: Entity): string
  {
    Street(e) + " · " + ZipCity(e)
  }

  /** The header put before the phone number: `Tél.` and two spaces. */
  const PhoneHeader: string := "Tél.  "

  /** `phone_with_header` */
  function PhoneWithHeader(e: Entity): string
  {
    PhoneHeader + Phone(e)
  }

  /** The GLN does not depend on the entity: author and therapist always carry the same one. */
  lemma GlnIsConstant(e: Entity, f: Entity)
    ensures Gln(e) == Gln(f) == "2099999999999"
  {
  }

  /**
   * `zip_city` holds exactly the ZIP and the city: one character longer than
   * both together, and, when the ZIP has no space of its own, splitting at the
   * first space gives them back.
   */
  lemma ZipCityParts(e: Entity)
    ensures |ZipCity(e)| == |e.ZIP| + 1 + |e.city|
    ensures ' ' !in e.ZIP ==> Text.Partition(ZipCity(e), ' ') == (e.ZIP, e.city)
  {
    if ' ' !in e.ZIP {
      Text.PartitionJoin(e.ZIP, e.city, ' ');
    }
  }

  /**
   * `address` begins with the street and ends with the `zip_city` line; when
   * the street has no middle dot, splitting at the first one gives both back
   * with the spaces around the dot.
   */
  lemma AddressParts(e: Entity)
    ensures Address(e)[..|e.street|] == e.street
    ensures Address(e)[|e.street| + 3..] == ZipCity(e)
    ensures '·' !in e.street ==> Text.Partition(Address(e), '·') == (e.street + " ", " " + ZipCity(e))
  {
    if '·' !in e.street {
      assert Address(e) == (e.street + " ") + ['·'] + (" " + ZipCity(e));
      Text.PartitionJoin(e.street + " ", " " + ZipCity(e), '·');
    }
  }

  /** `phone_with_header` is six header characters followed by the phone, unchanged. */
  lemma PhoneWithHeaderParts(e: Entity)
    ensures |PhoneHeader| == 6
    ensures PhoneWithHeader(e)[..6] == "Tél.  " && PhoneWithHeader(e)[6..] == e.phone
  {
  }

  /** The pass-through accessors return the entity's own fields. */
  lemma PassThrough(e: Entity)
    ensures Rcc(e) == e.RCC && Street(e) == e.street && Phone(e) == e.phone
  {
  }
}
