/**
 * The text the invoice shows for its therapist: the full name, and the GLN,
 * RCC and address lines every entity has.
 */
module TherapistContent {
  import Text
  import EntityContent

  /** The wrapped therapist; building the content object stores it and nothing else. */
  datatype Therapist = Therapist(entity: EntityContent.Entity, firstname: string, lastname: string)

  /** `name`: first name, one space, last name. */
  function Name(t: Therapist): string
  {
    t.firstname + " " + t.lastname
  }

  /** The name is one character longer than its parts, and gives them back when the first name has no space. */
  lemma NameParts(t: Therapist)
    ensures |Name(t)| == |t.firstname| + |t.lastname| + 1
    ensures ' ' !in t.firstname ==> Text.Partition(Name(t), ' ') == (t.firstname, t.lastname)
  {
    if ' ' !in t.firstname { Text.PartitionJoin(t.firstname, t.lastname, ' '); }
  }

  /**
   * The inherited accessors are the entity ones: the therapist's GLN is the
   * author's, and `zip_city` and `address` keep the entity formats.
   */
  lemma InheritedAccessors(t: Therapist, author: EntityContent.Entity)
    ensures EntityContent.Gln(t.entity) == EntityContent.Gln(author)
    ensures EntityContent.ZipCity(t.entity) == t.entity.ZIP + " " + t.entity.city
    ensures EntityContent.Address(t.entity) == t.entity.street + " · " + t.entity.ZIP + " " + t.entity.city
  {
    EntityContent.GlnIsConstant(t.entity, author);
  }
}
