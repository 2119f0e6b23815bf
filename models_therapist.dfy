/**
 * The therapist request model: per-field constraints and the pre-validator
 * that strips spaces from the phone number before its length is checked.
 * Unlike the patient, the therapist has no rule relating two fields.
 */
module TherapistModel {
  import opened Wrappers
  import Pattern
  import opened FieldRules

  /**
   * The raw therapist fields as they arrive; `None` stands for a field absent
   * from the request or null, except for the phone, whose pre-validator tells
   * the two apart.
   */
  datatype Input = Input(
    firstName: Option<string>,
    lastName: Option<string>,
    street: Option<string>,
    ZIP: Option<string>,
    city: Option<string>,
    phone: RawPhone,
    RCC: Option<string>)

  /** The therapist's fields, in declaration order. */
  datatype Field = FirstName | LastName | Street | Zip | City | Phone | Rcc

  const Fields: seq<Field> := [FirstName, LastName, Street, Zip, City, Phone, Rcc]

  /** The value field `f`'s declared constraint checks. */
  function Value(t: Input, f: Field): Option<string>
  {
    match f
    case FirstName => t.firstName
    case LastName => t.lastName
    case Street => t.street
    case Zip => t.ZIP
    case City => t.city
    case Phone => PhoneText(t.phone)
    case Rcc => t.RCC
  }

  /** The constraint each field declares on its own value. */
  predicate Constraint(f: Field, v: Option<string>)
  {
    match f
    case FirstName => LengthWithin(v, 1, 35)
    case LastName => LengthWithin(v, 1, 35)
    case Street => LengthWithin(v, 1, 35)
    case Zip => LengthWithin(v, 1, 9)
    case City => LengthWithin(v, 1, 35)
    case Phone => PhoneValid(v)
    case Rcc => OptionalShape(v, Pattern.RccShape)
  }

  /** The fields validation reports, in declaration order; the therapist is accepted when there are none. */
  function Errors(t: Input): seq<Field>
  {
    Failing(Fields, f => Constraint(f, Value(t, f)))
  }

  /** Building the model: the phone pre-validator raises first, or the failing fields are reported. */
  function Validate(t: Input): Verdict<Field>
  {
    if PhoneRaises(t.phone) then Raised else Reported(Errors(t))
  }

  function FieldIndex(f: Field): (i: nat)
    ensures i < |Fields| && Fields[i] == f
  {
    match f
    case FirstName => 0 case LastName => 1 case Street => 2 case Zip => 3 case City => 4
    case Phone => 5 case Rcc => 6
  }

  /** A field is reported exactly when its own value breaks its own constraint. */
  lemma ErrorsExactly(t: Input, f: Field)
    ensures f !in Errors(t) <==> Constraint(f, Value(t, f))
  {
    assert Fields[FieldIndex(f)] == f;
    FailingMembers(Fields, f' => Constraint(f', Value(t, f')), f);
  }

  /**
   * No cross-field rule: whether a field is reported depends on that field's
   * value alone, so two requests that agree on it get the same verdict on it.
   */
  lemma NoCrossFieldRule(t: Input, u: Input, f: Field)
    requires Value(t, f) == Value(u, f)
    ensures f in Errors(t) <==> f in Errors(u)
  {
    ErrorsExactly(t, f);
    ErrorsExactly(u, f);
  }

  /** RCC, when given, is one upper-case letter followed by six digits. */
  lemma RccAsDeclared(t: Input)
    ensures Rcc !in Errors(t) <==>
      t.RCC.None? || (|t.RCC.value| == 7 && 'A' <= t.RCC.value[0] <= 'Z' && Pattern.AllDigits(t.RCC.value[1..]))
  {
    ErrorsExactly(t, Rcc);
    if t.RCC.Some? { Pattern.RccShapeMeaning(t.RCC.value); }
  }

  /** The phone is checked after its spaces are removed: spaces never decide its verdict. */
  lemma PhoneIgnoresSpaces(t: Input, x: string, y: string)
    requires t.phone == Text(x + " " + y)
    ensures Phone in Errors(t) <==> Phone in Errors(t.(phone := Text(x + y)))
  {
    var u := t.(phone := Text(x + y));
    SpacesDoNotCount(x, y);
    assert Constraint(Phone, Value(t, Phone)) <==> Constraint(Phone, Value(u, Phone));
    ErrorsExactly(t, Phone);
    ErrorsExactly(u, Phone);
  }

  /** First name, last name, street and city are accepted with 1..35 characters; ZIP with 1..9. */
  lemma LengthBounds(t: Input)
    ensures FirstName !in Errors(t) <==> t.firstName.Some? && 1 <= |t.firstName.value| <= 35
    ensures LastName !in Errors(t) <==> t.lastName.Some? && 1 <= |t.lastName.value| <= 35
    ensures Street !in Errors(t) <==> t.street.Some? && 1 <= |t.street.value| <= 35
    ensures City !in Errors(t) <==> t.city.Some? && 1 <= |t.city.value| <= 35
    ensures Zip !in Errors(t) <==> t.ZIP.Some? && 1 <= |t.ZIP.value| <= 9
  {
    ErrorsExactly(t, FirstName);
    ErrorsExactly(t, LastName);
    ErrorsExactly(t, Street);
    ErrorsExactly(t, City);
    ErrorsExactly(t, Zip);
  }

  /** A therapist with no failing field has a text phone, so building it cannot have raised. */
  lemma AcceptedMeansReported(t: Input)
    ensures Validate(t) == Reported([]) <==> Errors(t) == []
  {
    ErrorsExactly(t, Phone);
    PhoneConstraint(t);
  }

  /**
   * A phone that is present but not a text (null, a number) makes the
   * pre-validator raise, so the therapist is neither accepted nor reported on.
   * Otherwise the phone is reported unless it is a text with 1..25 characters
   * once its spaces are removed; an absent phone is reported as required.
   */
  lemma PhoneBound(t: Input)
    ensures Validate(t) == Raised <==> t.phone.NotText?
    ensures t.phone.Absent? ==> Phone in Validate(t).failing
    ensures t.phone.Text? ==> (Phone !in Validate(t).failing <==> PhoneValid(Some(t.phone.s)))
  {
    ErrorsExactly(t, Phone);
    PhoneConstraint(t);
  }

  /** The phone's own constraint, as `Constraint` states it. */
  lemma PhoneConstraint(t: Input)
    ensures Constraint(Phone, Value(t, Phone)) == PhoneValid(PhoneText(t.phone))
  {
  }
}
