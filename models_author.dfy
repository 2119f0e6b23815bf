/**
 * The author request model: the declared constraint of each field and the
 * pre-validator that strips spaces from the phone number before its length
 * is checked. E-mail syntax is checked by a foreign validator, passed in as
 * `isEmail`.
 */
module AuthorModel {
  import opened Wrappers
  import Text
  import Pattern
  import opened FieldRules

  /**
   * The raw author fields as they arrive; `None` stands for a field absent
   * from the request or null, except for the phone, whose pre-validator tells
   * the two apart.
   */
  datatype Input = Input(
    name: Option<string>,
    street: Option<string>,
    ZIP: Option<string>,
    city: Option<string>,
    phone: RawPhone,
    email: Option<string>,
    RCC: Option<string>,
    QRIBAN: Option<string>,
    ESRId: Option<string>,
    ESRBankId: Option<string>)

  /** The author's fields, in declaration order. */
  datatype Field = Name | Street | Zip | City | Phone | Email | Rcc | QrIban | EsrId | EsrBankId

  const Fields: seq<Field> := [Name, Street, Zip, City, Phone, Email, Rcc, QrIban, EsrId, EsrBankId]

  /** `^CH[0-9]{2}3[0-1][0-9]{15}$` */
  const QrIbanShape: Pattern.Shape :=
    Pattern.Literal("CH") + Pattern.Times(Pattern.Digit, 2) + Pattern.Literal("3")
    + [[('0', '1')]] + Pattern.Times(Pattern.Digit, 15)

  /** `^[0-9]{6}$` */
  const EsrIdShape: Pattern.Shape := Pattern.Times(Pattern.Digit, 6)

  /** `^01[0-9]{7}$` */
  const EsrBankIdShape: Pattern.Shape := Pattern.Literal("01") + Pattern.Times(Pattern.Digit, 7)

  /** Whether field `f` of `a` passes its declared constraint. */
  predicate FieldValid(a: Input, f: Field, isEmail: string -> bool)
  {
    match f
    case Name => LengthWithin(a.name, 1, 70)
    case Street => LengthWithin(a.street, 1, 35)
    case Zip => LengthWithin(a.ZIP, 1, 9)
    case City => LengthWithin(a.city, 1, 35)
    case Phone => PhoneValid(PhoneText(a.phone))
    case Email => a.email.Some? && isEmail(a.email.value)
    case Rcc => OptionalShape(a.RCC, Pattern.RccShape)
    case QrIban => OptionalShape(a.QRIBAN, QrIbanShape)
    case EsrId => OptionalShape(a.ESRId, EsrIdShape)
    case EsrBankId => OptionalShape(a.ESRBankId, EsrBankIdShape)
  }

  /** The fields validation reports, in declaration order; the author is accepted when there are none. */
  function Errors(a: Input, isEmail: string -> bool): seq<Field>
  {
    Failing(Fields, f => FieldValid(a, f, isEmail))
  }

  /** Building the model: the phone pre-validator raises first, or the failing fields are reported. */
  function Validate(a: Input, isEmail: string -> bool): Verdict<Field>
  {
    if PhoneRaises(a.phone) then Raised else Reported(Errors(a, isEmail))
  }

  /** Field `f` is reported exactly when it fails its own constraint. */
  lemma ErrorsExactly(a: Input, f: Field, isEmail: string -> bool)
    ensures f !in Errors(a, isEmail) <==> FieldValid(a, f, isEmail)
  {
    assert Fields[FieldIndex(f)] == f;
    FailingMembers(Fields, f' => FieldValid(a, f', isEmail), f);
  }

  function FieldIndex(f: Field): (i: nat)
    ensures i < |Fields| && Fields[i] == f
  {
    match f
    case Name => 0 case Street => 1 case Zip => 2 case City => 3 case Phone => 4
    case Email => 5 case Rcc => 6 case QrIban => 7 case EsrId => 8 case EsrBankId => 9
  }

  /** The pattern fields pass when absent, and otherwise exactly when they have the declared form. */
  lemma PatternConstraints(a: Input, isEmail: string -> bool)
    ensures FieldValid(a, Rcc, isEmail) <==>
      a.RCC.None? || (|a.RCC.value| == 7 && 'A' <= a.RCC.value[0] <= 'Z' && Pattern.AllDigits(a.RCC.value[1..]))
    ensures FieldValid(a, QrIban, isEmail) <==> a.QRIBAN.None? || IsQrIbanText(a.QRIBAN.value)
    ensures FieldValid(a, EsrId, isEmail) <==>
      a.ESRId.None? || (|a.ESRId.value| == 6 && Pattern.AllDigits(a.ESRId.value))
    ensures FieldValid(a, EsrBankId, isEmail) <==>
      a.ESRBankId.None? || (|a.ESRBankId.value| == 9 && a.ESRBankId.value[..2] == "01" && Pattern.AllDigits(a.ESRBankId.value[2..]))
  {
    if a.RCC.Some? { Pattern.RccShapeMeaning(a.RCC.value); }
    if a.QRIBAN.Some? { QrIbanMeaning(a.QRIBAN.value); }
    if a.ESRId.Some? { Pattern.DigitsMeaning(6, a.ESRId.value); }
    if a.ESRBankId.Some? { EsrBankIdMeaning(a.ESRBankId.value); }
  }

  /** `CH`, two digits, `3`, `0` or `1`, fifteen digits: 21 characters. */
  predicate IsQrIbanText(s: string)
  {
    |s| == 21 && s[..2] == "CH" && Pattern.AllDigits(s[2..4]) && s[4] == '3' && '0' <= s[5] <= '1'
    && Pattern.AllDigits(s[6..])
  }

  lemma QrIbanMeaning(s: string)
    ensures Pattern.FullMatch(QrIbanShape, s) <==> IsQrIbanText(s)
  {
    var p1 := Pattern.Literal("CH");
    var p2 := Pattern.Times(Pattern.Digit, 2);
    var p3 := Pattern.Literal("3");
    var p4: Pattern.Shape := [[('0', '1')]];
    var p5 := Pattern.Times(Pattern.Digit, 15);
    assert QrIbanShape == (((p1 + p2) + p3) + p4) + p5;
    Pattern.FullMatchAppend(((p1 + p2) + p3) + p4, p5, s);
    if |s| == 21 {
      var s4 := s[..6];
      Pattern.FullMatchAppend((p1 + p2) + p3, p4, s4);
      var s3 := s4[..5];
      Pattern.FullMatchAppend(p1 + p2, p3, s3);
      var s2 := s3[..4];
      Pattern.FullMatchAppend(p1, p2, s2);
      Pattern.LiteralMeaning("CH", s2[..2]);
      Pattern.DigitsMeaning(2, s2[2..]);
      Pattern.LiteralMeaning("3", s3[4..]);
      Pattern.DigitsMeaning(15, s[6..]);
      assert s2 == s[..4] && s3 == s[..5];
      assert s2[..2] == s[..2];
      assert s2[2..] == s[2..4];
      assert s3[4..] == [s[4]];
      assert s4[5..] == [s[5]];
      assert Pattern.FullMatch(p4, s4[5..]) <==> '0' <= s[5] <= '1' by {
        assert p4[0][1..] == [];
      }
    }
  }

  lemma EsrBankIdMeaning(s: string)
    ensures Pattern.FullMatch(EsrBankIdShape, s) <==>
      |s| == 9 && s[..2] == "01" && Pattern.AllDigits(s[2..])
  {
    Pattern.FullMatchAppend(Pattern.Literal("01"), Pattern.Times(Pattern.Digit, 7), s);
    if |s| == 9 {
      Pattern.LiteralMeaning("01", s[..2]);
      Pattern.DigitsMeaning(7, s[2..]);
    }
  }

  /**
   * The phone is checked after its spaces are removed: spaces never decide its
   * verdict, so a number made longer than 25 characters by spaces alone passes.
   */
  lemma PhoneIgnoresSpaces(a: Input, x: string, y: string, isEmail: string -> bool)
    requires a.phone == Text(x + " " + y)
    ensures Phone in Errors(a, isEmail) <==> Phone in Errors(a.(phone := Text(x + y)), isEmail)
  {
    var b := a.(phone := Text(x + y));
    SpacesDoNotCount(x, y);
    PhoneConstraint(a, isEmail);
    PhoneConstraint(b, isEmail);
    ErrorsExactly(a, Phone, isEmail);
    ErrorsExactly(b, Phone, isEmail);
  }

  /** Malformed RCC, ESR and ESR bank identifiers are rejected. */
  lemma MalformedIdentifiersRejected(a: Input, isEmail: string -> bool)
    requires a.RCC.Some? && a.RCC.value in ["1123123", "123123", "VV23123", "VVVVVVV"]
    requires a.ESRId.Some? && a.ESRId.value in ["12345", "1234567", "AAAAAA"]
    requires a.ESRBankId.Some? && a.ESRBankId.value in ["01123456", "0112345612", "111234561", "01AAAAAA1"]
    ensures Rcc in Errors(a, isEmail) && EsrId in Errors(a, isEmail) && EsrBankId in Errors(a, isEmail)
  {
    PatternConstraints(a, isEmail);
    var r, e, b := a.RCC.value, a.ESRId.value, a.ESRBankId.value;
    assert !Pattern.AllDigits(r[1..]) || !('A' <= r[0] <= 'Z') || |r| != 7 by {
      if r == "VV23123" { assert r[1..][0] == 'V'; }
      else if r == "VVVVVVV" { assert r[1..][0] == 'V'; }
    }
    assert |e| != 6 || !Pattern.AllDigits(e) by {
      if e == "AAAAAA" { assert e[0] == 'A'; }
    }
    assert |b| != 9 || b[..2] != "01" || !Pattern.AllDigits(b[2..]) by {
      if b == "111234561" { assert b[..2][0] == '1'; }
      else if b == "01AAAAAA1" { assert b[2..][0] == 'A'; }
    }
    ErrorsExactly(a, Rcc, isEmail);
    ErrorsExactly(a, EsrId, isEmail);
    ErrorsExactly(a, EsrBankId, isEmail);
  }

  /** Name is accepted with 1..70 characters; street and city with 1..35; ZIP with 1..9. */
  lemma LengthBounds(a: Input, isEmail: string -> bool)
    ensures Name !in Errors(a, isEmail) <==> a.name.Some? && 1 <= |a.name.value| <= 70
    ensures Street !in Errors(a, isEmail) <==> a.street.Some? && 1 <= |a.street.value| <= 35
    ensures City !in Errors(a, isEmail) <==> a.city.Some? && 1 <= |a.city.value| <= 35
    ensures Zip !in Errors(a, isEmail) <==> a.ZIP.Some? && 1 <= |a.ZIP.value| <= 9
  {
    ErrorsExactly(a, Name, isEmail);
    ErrorsExactly(a, Street, isEmail);
    ErrorsExactly(a, City, isEmail);
    ErrorsExactly(a, Zip, isEmail);
    LengthConstraints(a, isEmail);
  }

  /** Each length-bounded field's own constraint, one case of `FieldValid` at a time. */
  lemma LengthConstraints(a: Input, isEmail: string -> bool)
    ensures FieldValid(a, Name, isEmail) == LengthWithin(a.name, 1, 70)
    ensures FieldValid(a, Street, isEmail) == LengthWithin(a.street, 1, 35)
    ensures FieldValid(a, City, isEmail) == LengthWithin(a.city, 1, 35)
    ensures FieldValid(a, Zip, isEmail) == LengthWithin(a.ZIP, 1, 9)
  {
  }

  /**
   * A phone that is present but not a text (null, a number) makes the
   * pre-validator raise, so the author is neither accepted nor reported on.
   * Otherwise the phone is reported unless it is a text with 1..25 characters
   * once its spaces are removed; an absent phone is reported as required.
   */
  lemma PhoneBound(a: Input, isEmail: string -> bool)
    ensures Validate(a, isEmail) == Raised <==> a.phone.NotText?
    ensures a.phone.Absent? ==> Phone in Validate(a, isEmail).failing
    ensures a.phone.Text? ==>
      (Phone !in Validate(a, isEmail).failing <==> PhoneValid(Some(a.phone.s)))
  {
    ErrorsExactly(a, Phone, isEmail);
    PhoneConstraint(a, isEmail);
  }

  /** An author with no failing field has a text phone, so building it cannot have raised. */
  lemma AcceptedMeansReported(a: Input, isEmail: string -> bool)
    ensures Validate(a, isEmail) == Reported([]) <==> Errors(a, isEmail) == []
  {
    ErrorsExactly(a, Phone, isEmail);
    PhoneConstraint(a, isEmail);
  }

  /** The phone's own constraint, as `FieldValid` states it. */
  lemma PhoneConstraint(a: Input, isEmail: string -> bool)
    ensures FieldValid(a, Phone, isEmail) == PhoneValid(PhoneText(a.phone))
  {
  }
}
