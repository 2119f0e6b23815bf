/**
 * Building blocks shared by the request models: the fields that fail their
 * constraint, the phone pre-validator used by the author and the therapist,
 * and the lower bound both the patient and the invoice put on raw timestamps.
 */
module FieldRules {
  import opened Wrappers
  import Text
  import Pattern

  /** The fields among `fields` whose constraint fails, in the same order. */
  function Failing<F>(fields: seq<F>, valid: F -> bool): (r: seq<F>)
    ensures |r| <= |fields|
    decreases |fields|
  {
    if |fields| == 0 then []
    else (if valid(fields[0]) then [] else [fields[0]]) + Failing(fields[1..], valid)
  }

  /** A field is reported exactly when it is one of `fields` and its constraint fails. */
  lemma {:induction false} FailingMembers<F>(fields: seq<F>, valid: F -> bool, f: F)
    ensures f in Failing(fields, valid) <==> f in fields && !valid(f)
    decreases |fields|
  {
    if |fields| > 0 {
      FailingMembers(fields[1..], valid, f);
      assert fields == [fields[0]] + fields[1..];
    }
  }

  /** `remove_phone_whitespace`: every space is dropped, every other character kept. */
  function RemovePhoneWhitespace(value: string): (r: string)
    ensures ' ' !in r
    ensures forall c :: c != ' ' ==> (c in r <==> c in value)
    ensures ' ' !in value ==> r == value
  {
    assert ' ' !in value ==> Text.RemoveAll(value, ' ') == value by {
      if ' ' !in value { Text.RemoveAllAbsent(value, ' '); }
    }
    forall c | c != ' ' ensures c in Text.RemoveAll(value, ' ') <==> c in value {
      Text.RemoveAllKeeps(value, ' ', c);
    }
    Text.RemoveAll(value, ' ')
  }

  /**
   * The phone is measured without its spaces: inserting a space anywhere never
   * changes the stripped value, so a number padded past 25 characters by spaces
   * alone passes a 25-character bound.
   */
  lemma SpacesDoNotCount(x: string, y: string)
    ensures RemovePhoneWhitespace(x + " " + y) == RemovePhoneWhitespace(x + y)
  {
    Text.RemoveAllAppend(x + " ", y, ' ');
    Text.RemoveAllAppend(x, " ", ' ');
    Text.RemoveAllAppend(x, y, ' ');
  }

  /**
   * The phone as the request carries it: absent, present as a JSON value that
   * is not a text (null, a number, a list, ...), or a text.
   */
  datatype RawPhone = Absent | NotText | Text(s: string)

  /**
   * `remove_phone_whitespace` runs before the declared constraint on every
   * present value, and `.replace` exists only on a text: on anything else it
   * raises `AttributeError`, which pydantic does not turn into a validation
   * error, so the exception escapes model construction. An absent field never
   * reaches the pre-validator and is reported as required instead.
   */
  predicate PhoneRaises(v: RawPhone)
  {
    v.NotText?
  }

  /** The phone text the declared constraint measures; none when it is absent. */
  function PhoneText(v: RawPhone): Option<string>
  {
    if v.Text? then Some(v.s) else None
  }

  /** How validating a request model ends: an exception escapes, or the list of fields that fail. */
  datatype Verdict<F> = Raised | Reported(failing: seq<F>)

  /** The phone constraint: present, and 1..25 characters once its spaces are removed. */
  predicate PhoneValid(v: Option<string>)
  {
    v.Some? && 1 <= |RemovePhoneWhitespace(v.value)| <= 25
  }

  /** A required text field whose length lies in `lo..hi`. */
  predicate LengthWithin(v: Option<string>, lo: nat, hi: nat)
  {
    v.Some? && lo <= |v.value| <= hi
  }

  /** An optional field that, when given, matches `p`. */
  predicate OptionalShape(v: Option<string>, p: Pattern.Shape)
  {
    v.None? || Pattern.FullMatch(p, v.value)
  }

  /** The most negative raw timestamp accepted: `-int(2e10)`. */
  const TimestampLowerBound: int := -20000000000

  /** `check_valid_pydantic_date`: a raw timestamp is refused exactly when it lies below the bound. */
  predicate CheckValidPydanticDate(value: int)
  {
    !(value < TimestampLowerBound)
  }

  /** The bound itself is accepted and everything below it refused. */
  lemma TimestampBoundSharp(value: int)
    ensures CheckValidPydanticDate(value) <==> value >= -20000000000
    ensures CheckValidPydanticDate(-20000000000) && !CheckValidPydanticDate(-20000000001)
  {
  }
}
