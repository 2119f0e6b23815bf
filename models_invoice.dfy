/**
 * The invoice request model: its own field constraints, the nested author,
 * therapist and patient models, the raw-timestamp pre-validator, and the
 * therapy period derived from the service dates. The service model itself
 * (models/service.py) is not part of this model: a service is reduced to the
 * timestamp of its date.
 */
module InvoiceModel {
  import opened Wrappers
  import Pattern
  import opened FieldRules
  import AuthorModel
  import TherapistModel
  import PatientModel

  datatype Service = Service(date: int)

  datatype Input = Input(
    naturapeuteID: Option<string>,
    author: Option<AuthorModel.Input>,
    therapist: Option<TherapistModel.Input>,
    patient: Option<PatientModel.Input>,
    servicePrice: Option<int>,
    services: Option<seq<Service>>,
    QRReference: Option<string>,
    timestamp: Option<int>)

  /**
   * What validation reports, one entry per field in declaration order. A
   * nested model carries the errors of its own fields; it carries none when
   * it is missing altogether.
   */
  datatype Issue =
    | NaturapeuteId
    | Author(authorErrors: seq<AuthorModel.Field>)
    | Therapist(therapistErrors: seq<TherapistModel.Field>)
    | Patient(patientErrors: seq<PatientModel.Issue>)
    | ServicePrice
    | Services
    | QrReference
    | Timestamp

  /** `^[a-fA-F0-9]{24}$` */
  const NaturapeuteIdShape: Pattern.Shape := Pattern.Times(Pattern.HexDigit, 24)

  /** `^[0-9]{27}$` */
  const QrReferenceShape: Pattern.Shape := Pattern.Times(Pattern.Digit, 27)

  const MinServices: nat := 1
  const MaxServices: nat := 5

  /** The issue a nested model contributes, if any. */
  function Nested<T, F>(v: Option<T>, errors: T -> seq<F>, wrap: seq<F> -> Issue): seq<Issue>
  {
    if v.None? then [wrap([])]
    else if errors(v.value) == [] then []
    else [wrap(errors(v.value))]
  }

  function Unless(ok: bool, i: Issue): seq<Issue>
  {
    if ok then [] else [i]
  }

  /** Everything validation reports; the invoice is accepted when there is nothing. */
  function Errors(inv: Input, isEmail: string -> bool): seq<Issue>
  {
    Unless(OptionalShape(inv.naturapeuteID, NaturapeuteIdShape), NaturapeuteId)
    + Nested(inv.author, a => AuthorModel.Errors(a, isEmail), e => Author(e))
    + Nested(inv.therapist, TherapistModel.Errors, e => Therapist(e))
    + Nested(inv.patient, p => PatientModel.Errors(p, isEmail), e => Patient(e))
    + Unless(inv.servicePrice.Some? && inv.servicePrice.value > 0, ServicePrice)
    + Unless(inv.services.Some? && MinServices <= |inv.services.value| <= MaxServices, Services)
    + Unless(OptionalShape(inv.QRReference, QrReferenceShape), QrReference)
    + Unless(inv.timestamp.Some? && CheckValidPydanticDate(inv.timestamp.value), Timestamp)
  }

  /**
   * An exception a nested model raises while it is built is not a validation
   * error: it escapes the invoice's construction too.
   */
  predicate NestedRaises(inv: Input)
  {
    (inv.author.Some? && PhoneRaises(inv.author.value.phone))
    || (inv.therapist.Some? && PhoneRaises(inv.therapist.value.phone))
  }

  /** Building the invoice: an exception escapes, or everything that fails is reported. */
  function Validate(inv: Input, isEmail: string -> bool): Verdict<Issue>
  {
    if NestedRaises(inv) then Raised else Reported(Errors(inv, isEmail))
  }

  /**
   * A phone sent as null or as a number, in the author or in the therapist,
   * makes building the invoice raise instead of reporting a validation error,
   * whatever the other fields hold.
   */
  lemma NonTextPhoneRaises(inv: Input, isEmail: string -> bool)
    requires (inv.author.Some? && inv.author.value.phone.NotText?)
      || (inv.therapist.Some? && inv.therapist.value.phone.NotText?)
    ensures Validate(inv, isEmail) == Raised
  {
  }

  /**
   * An invoice is accepted exactly when every declared constraint holds: the
   * identifier is absent or 24 hexadecimal characters, the three nested models
   * are present and accepted, the price is positive, there are one to five
   * services, the QR reference is absent or 27 digits, and the raw timestamp
   * is not below -2·10^10. Each service must also be accepted by the service
   * model (its date, duration and code checks), which is not part of this
   * model: a service here is its date alone.
   */
  lemma AcceptedExactly(inv: Input, isEmail: string -> bool)
    ensures Validate(inv, isEmail) == Reported([]) <==>
      && (inv.naturapeuteID.None? || (|inv.naturapeuteID.value| == 24 && Pattern.AllHex(inv.naturapeuteID.value)))
      && inv.author.Some? && AuthorModel.Validate(inv.author.value, isEmail) == Reported([])
      && inv.therapist.Some? && TherapistModel.Validate(inv.therapist.value) == Reported([])
      && inv.patient.Some? && PatientModel.Errors(inv.patient.value, isEmail) == []
      && inv.servicePrice.Some? && inv.servicePrice.value > 0
      && inv.services.Some? && 1 <= |inv.services.value| <= 5
      && (inv.QRReference.None? || (|inv.QRReference.value| == 27 && Pattern.AllDigits(inv.QRReference.value)))
      && inv.timestamp.Some? && inv.timestamp.value >= -20000000000
  {
    NoErrorsExactly(inv, isEmail);
    RaisedNeverEmpty(inv, isEmail);
    if inv.author.Some? { AuthorModel.AcceptedMeansReported(inv.author.value, isEmail); }
    if inv.therapist.Some? { TherapistModel.AcceptedMeansReported(inv.therapist.value); }
  }

  /** The invoice's own reading of "nothing reported", before exceptions are considered. */
  lemma NoErrorsExactly(inv: Input, isEmail: string -> bool)
    ensures Errors(inv, isEmail) == [] <==>
      && (inv.naturapeuteID.None? || (|inv.naturapeuteID.value| == 24 && Pattern.AllHex(inv.naturapeuteID.value)))
      && inv.author.Some? && AuthorModel.Errors(inv.author.value, isEmail) == []
      && inv.therapist.Some? && TherapistModel.Errors(inv.therapist.value) == []
      && inv.patient.Some? && PatientModel.Errors(inv.patient.value, isEmail) == []
      && inv.servicePrice.Some? && inv.servicePrice.value > 0
      && inv.services.Some? && 1 <= |inv.services.value| <= 5
      && (inv.QRReference.None? || (|inv.QRReference.value| == 27 && Pattern.AllDigits(inv.QRReference.value)))
      && inv.timestamp.Some? && inv.timestamp.value >= -20000000000
  {
    if inv.naturapeuteID.Some? { Pattern.HexMeaning(24, inv.naturapeuteID.value); }
    if inv.QRReference.Some? { Pattern.DigitsMeaning(27, inv.QRReference.value); }
  }

  /** An invoice whose building raises would also have something to report: raising never hides an accepted invoice. */
  lemma RaisedNeverEmpty(inv: Input, isEmail: string -> bool)
    ensures NestedRaises(inv) ==> Errors(inv, isEmail) != []
  {
    if inv.author.Some? {
      AuthorModel.AcceptedMeansReported(inv.author.value, isEmail);
    }
    if inv.therapist.Some? {
      TherapistModel.AcceptedMeansReported(inv.therapist.value);
    }
    NoErrorsExactly(inv, isEmail);
  }

  /** The earliest and the latest date of a non-empty list of services. */
  function MinDate(services: seq<Service>): (d: int)
    requires |services| > 0
    ensures exists i :: 0 <= i < |services| && services[i].date == d
    ensures forall i :: 0 <= i < |services| ==> d <= services[i].date
  {
    if |services| == 1 then services[0].date
    else
      var rest := MinDate(services[1..]);
      assert forall i :: 1 <= i < |services| ==> services[i] == services[1..][i - 1];
      if services[0].date <= rest then services[0].date else rest
  }

  function MaxDate(services: seq<Service>): (d: int)
    requires |services| > 0
    ensures exists i :: 0 <= i < |services| && services[i].date == d
    ensures forall i :: 0 <= i < |services| ==> services[i].date <= d
  {
    if |services| == 1 then services[0].date
    else
      var rest := MaxDate(services[1..]);
      assert forall i :: 1 <= i < |services| ==> services[i] == services[1..][i - 1];
      if services[0].date >= rest then services[0].date else rest
  }

  /**
   * `therapy_dates`: the first and the last service date. An accepted invoice
   * has at least one service, which is all this needs.
   */
  function TherapyDates(services: seq<Service>): (r: (int, int))
    requires |services| > 0
    ensures r.0 <= r.1
    ensures exists i :: 0 <= i < |services| && services[i].date == r.0
    ensures exists j :: 0 <= j < |services| && services[j].date == r.1
    ensures forall k :: 0 <= k < |services| ==> r.0 <= services[k].date <= r.1
  {
    (MinDate(services), MaxDate(services))
  }

  /** The services of an accepted invoice always have a therapy period. */
  lemma AcceptedHasTherapyDates(inv: Input, isEmail: string -> bool)
    requires Validate(inv, isEmail) == Reported([])
    ensures inv.services.Some? && |inv.services.value| > 0
  {
    AcceptedExactly(inv, isEmail);
  }
}
