# Aposto invoice barcodes and request validators, in Dafny

This project models the text that feeds the two barcodes of an Aposto invoice
(a Tarif 590 medical invoice with a Swiss QR-bill), together with the
validators of the incoming request:

- the Swiss QR-bill payload (`QrInvoice`), assembled field by field from the
  invoice content: header `SPC`/`0210`/`1`, the creditor IBAN, the creditor
  address block, amount and currency, the ultimate-debtor block, the
  remittance block and the `EPD` trailer, all separated by CRLF;
- the display grouping of the IBAN (groups of four) and of the payment
  reference (groups of four for `SCOR`, `2 + 5 + 5 ...` for `QRR`);
- the ESR coding line and the fixed-length (169-character) Data Matrix text,
  in both revisions of the invoice content: the current one built on the
  request models (`InvoiceContent`) and the older one that reads the decoded
  request dictionary directly (`DictInvoiceContent`, `DictEntities`);
- the schema check of the dictionary revision (`DictInvoiceContent.Validate`),
  a nested loop that collects error paths such as `author.name` or
  `services[0].date` and raises when it found any, on whatever the request
  decodes to (`DictInvoiceContent.ValidateBody`: an object, or an array, a
  text, a number, a Boolean or null, for which Python's `in` behaves
  differently);
- the field constraints of the request models for the author, the patient,
  the therapist and the invoice (`AuthorModel`, `PatientModel`,
  `TherapistModel`, `InvoiceModel`);
- the small accessors of the content objects (`EntityContent`,
  `AuthorContent`, `PatientContent`, `TherapistContent`).

The model follows the code, not the Swiss Payment Code standard. The payload
has no ultimate-creditor block. It uses version `0210` and always declares a
`QRR` reference. It carries the space-grouped IBAN and reference rather than
the raw values. Each file is modelled against its own field names, since the
revisions disagree (`firstName`/`firstname`, `ZIP`/`zipcode`,
`IBAN`/`QRIBAN`, `birthday`/`birthdate`). The objects the content classes
read are plain input records. Amounts and dates arrive as already formatted
strings. Each service contributes the integer part of its amount.

Python's "falsy" tests (`not x`) are modelled as `Wrappers.Falsy`: `None` or
the empty string. `f"{x}"` of an optional value is `Wrappers.PyStr`, which
writes `None` for an absent value. Exceptions are `Result`/`Outcome` values.
A pydantic model's verdict (`FieldRules.Verdict`) is the list of fields
whose constraint fails, where an empty list means the model is accepted, or
`Raised` when an exception escapes building it: the phone pre-validator calls
`.replace`, which a null or numeric phone does not have.

Modules: `Wrappers`, `Text` (join, chunking, split, removal of a character,
padding) and `Pattern` (the anchored fixed-length regular expressions) are
helpers. `Datamatrix` holds the service loop and the 169-character
normalisation that both invoice revisions share. `FieldRules` holds what the
request models share. Every other module follows one source file.

## Model

| member | source | states |
|---|---|---|
| `QrInvoice.PayloadStart` | pdf_generation/qr_invoice.py:12-30 | the payload always begins with `SPC`, CRLF, `0210`, CRLF, `1` |
| `QrInvoice.Fields` | pdf_generation/qr_invoice.py:160-169 | the payload has exactly 25 fields: header 3, IBAN 1, creditor 7, amount 2, debtor 7, remittance 2, additional information 3 |
| `QrInvoice.PayloadIsJoinOfFields` | pdf_generation/qr_invoice.py:160-169 | the assembled string is exactly the 25 fields joined by CRLF |
| `QrInvoice.PayloadLines` | pdf_generation/qr_invoice.py:160-169 | when no inserted value contains CRLF, splitting the payload on CRLF gives back the 25 fields in order |
| `QrInvoice.BlockOrder` | pdf_generation/qr_invoice.py:161-167 | the payload is the seven blocks in the fixed order header, IBAN, creditor, amount, debtor, remittance, additional information |
| `QrInvoice.BlockFields` | pdf_generation/qr_invoice.py:28-158 | each block property (`header`, `cdtr`, `ccy_amt`, `ultmt_dbtr`, `rmt_inf`, `add_inf`) is the CRLF join of its own fields, empty ones included |
| `QrInvoice.FieldPositions` | pdf_generation/qr_invoice.py:32-158 | field by position: creditor and debtor blocks are `K`, name, line 1, line 2, `""`, `""`, `CH`; the amount is the invoice total followed by `CHF`; the remittance is `QRR` and the display reference; the trailer is `""`, `EPD`, `""` |
| `QrInvoice.PayloadEnd` | pdf_generation/qr_invoice.py:144-167 | the payload ends with CRLF, `EPD`, CRLF |
| `QrInvoice.RemittanceTypeFixed` | pdf_generation/qr_invoice.py:132-142 | the remittance type is `QRR` whatever the reference type, and changing the reference type changes no other field than the printed reference |
| `QrInvoice.IbanFieldIsDisplayIban` | pdf_generation/qr_invoice.py:32-38 | the IBAN field is the space-grouped IBAN: removing its spaces gives back the author's raw IBAN |
| `AuthorContent.PassThrough` | pdf_generation/contents/author_content.py:10-16 | `name` and `email` return the author's fields unchanged |
| `AuthorContent.IbanRoundTrip` | pdf_generation/contents/author_content.py:18-23 | removing the spaces of `iban` restores the IBAN, and splitting it on a space gives back the 4-character chunks |
| `AuthorContent.IbanGroups` | pdf_generation/contents/author_content.py:21 | every group but the last has exactly 4 characters, each has 1..4, and together they make up the IBAN |
| `AuthorContent.SwissIbanLayout` | pdf_generation/contents/author_content.py:21 | a 21-character IBAN gives 6 groups and 26 characters |
| `AuthorContent.EmptyIban` | pdf_generation/contents/author_content.py:21 | an empty IBAN has no chunks and yields the empty string |
| `EntityContent.Gln` | pdf_generation/contents/entity_content.py:11-13 | the GLN is a 13-digit text |
| `EntityContent.GlnIsConstant` | pdf_generation/contents/entity_content.py:11-13 | every entity has the GLN `2099999999999` |
| `EntityContent.PassThrough` | pdf_generation/contents/entity_content.py:15-33 | `rcc`, `street` and `phone` pass the entity's fields through unchanged |
| `EntityContent.ZipCityParts` | pdf_generation/contents/entity_content.py:23-25 | `zip_city` is ZIP, one space, city: its length is theirs plus one, and splitting at the first space gives them back |
| `EntityContent.AddressParts` | pdf_generation/contents/entity_content.py:27-29 | `address` starts with the street, ends with `zip_city`, and splits at the middle dot into street and ZIP-city line |
| `EntityContent.PhoneWithHeaderParts` | pdf_generation/contents/entity_content.py:35-37 | `phone_with_header` is `Tél.` and two spaces, then the phone unchanged |
| `PatientContent.GenderCode` | pdf_generation/contents/patient_content.py:32-37 | `gender` is `H` exactly when the stored value is `man`, and `F` otherwise |
| `PatientContent.RequestGendersGiveF` | pdf_generation/contents/patient_content.py:32-37 | the two values the request model admits (`male`, `female`) both print as `F`; this revision reads fields (`firstname`, `zipcode`) the request model does not have, so it targets another revision of that model |
| `PatientContent.NameParts` | pdf_generation/contents/patient_content.py:43-45 | `name` is first name, one space, last name, and gives both back |
| `PatientContent.ZipCityParts` | pdf_generation/contents/patient_content.py:47-49 | `zip_city` is zip code, one space, city, and gives both back |
| `PatientContent.BirthdateLineParts` | pdf_generation/contents/patient_content.py:55-57 | the line is `Date de naissance `, the birth date, `/` and the one-letter gender |
| `PatientContent.SsnAlwaysEmpty` | pdf_generation/contents/patient_content.py:59-64 | `ssn` is always the empty string |
| `PatientContent.Attribute` | pdf_generation/contents/patient_content.py:8-64 | the content object has exactly the listed properties; any other name is an attribute error |
| `PatientContent.NoBirthdayProperty` | pdf_generation/contents/patient_content.py:28-30 | there is a `birthdate` property and no `birthday` one |
| `TherapistContent.NameParts` | pdf_generation/contents/therapist_content.py:10-12 | `name` is first name, one space, last name: its length is the two lengths plus one |
| `TherapistContent.InheritedAccessors` | pdf_generation/contents/therapist_content.py:5-8 | a therapist's GLN is the author's, and `zip_city` and `address` keep the entity formats |
| `InvoiceContent.PaidOwedComplementary` | pdf_generation/contents/invoice_content.py:130-136 | one of the paid and owed amounts is the total and the other `0.00`, chosen by `paid`; flipping `paid` swaps them |
| `InvoiceContent.ScorReference` | pdf_generation/contents/invoice_content.py:146-149 | a `SCOR` reference prints in 4-character chunks (only the last may be shorter) and removing the spaces restores it |
| `InvoiceContent.QrrReference` | pdf_generation/contents/invoice_content.py:150-154 | a `QRR` reference prints as characters 0-1, then 5-character chunks, and removing the spaces restores it |
| `InvoiceContent.QrrReference27` | pdf_generation/contents/invoice_content.py:150-154 | a 27-character `QRR` reference gives 6 chunks and 32 characters |
| `InvoiceContent.OtherReference` | pdf_generation/contents/invoice_content.py:143-156 | any other reference type prints the reference unchanged |
| `InvoiceContent.EsrAmount` | pdf_generation/contents/invoice_content.py:163 | the amount is the total without dots, left-padded with `0` to at least 10 characters and unchanged when longer |
| `InvoiceContent.EsrCodingLineLayout` | pdf_generation/contents/invoice_content.py:158-165 | the line is absent exactly when `ESRId` or `ESRBankId` is missing or empty; otherwise it is `01`, the amount, `>`, then the ESR id, the QR reference, `+ ` and the bank id |
| `InvoiceContent.MissingQrReferenceWrittenAsNone` | pdf_generation/contents/invoice_content.py:165 | an absent QR reference is written into the line as `None` |
| `InvoiceContent.GlnListConstant` | pdf_generation/contents/invoice_content.py:70-72 | `gln_list` is `1/2099999999999 2/2099999999999` for every invoice |
| `InvoiceContent.DatamatrixAsWrittenNeverProduced` | pdf_generation/contents/invoice_content.py:167-193 | as written, no ESR line gives no text and an ESR line raises an attribute error |
| `InvoiceContent.GenerateDatamatrixString` | pdf_generation/contents/invoice_content.py:167-193 | no text exactly when the ESR line is absent; otherwise exactly 169 characters: the fixed part and one digit per service, forced to length |
| `InvoiceContent.DatamatrixPrefixFields` | pdf_generation/contents/invoice_content.py:171-181 | split on `#`, the fixed part is the ESR line, both GLNs, the start date, the empty SSN, the birth date and `0` |
| `Datamatrix.PrefixEndsWithDue` | pdf_generation/contents/invoice_content.py:177-181 | the fixed part ends in `0#`, right before the service digits |
| `Datamatrix.ServiceDigit` | pdf_generation/contents/invoice_content.py:185 | each service contributes one digit in `0`..`9` |
| `Datamatrix.ServiceDigitsShape` | pdf_generation/contents/invoice_content.py:183-186 | the loop appends two characters per service: that service's digit, then `#` |
| `Datamatrix.FitToLength` | pdf_generation/contents/invoice_content.py:188-191 | the result has exactly 169 characters: the last 169 when longer, the text followed by `0`s when shorter |
| `Datamatrix.FitIdempotent` | pdf_generation/contents/invoice_content.py:188-191 | a 169-character text is left as is, so forcing twice is forcing once |
| `Datamatrix.Assemble` | pdf_generation/invoice_content.py:200-208 | the loop's result is the prefix plus each service's digit and `#`, forced to 169 characters |
| `Datamatrix.PrefixFields` | pdf_generation/invoice_content.py:196-198 | split on `#`, the fixed part gives back its six fields, the due amount `0` and an empty tail |
| `DictInvoiceContent.PyIn` | pdf_generation/invoice_content.py:145-161 | Python's `in` raises `TypeError` exactly on values that are neither an object, a text nor a list |
| `DictInvoiceContent.CheckSubs` | pdf_generation/invoice_content.py:160-162 | the sub-key loop records `prefix + sub` for every absent listed sub-key, as the fold specifies |
| `DictInvoiceContent.CheckEntry` | pdf_generation/invoice_content.py:144-162 | one pass of the schema loop: missing entry, non-list entry, per-element or per-section sub-keys |
| `DictInvoiceContent.Validate` | pdf_generation/invoice_content.py:140-165 | on a decoded JSON object, `validate` ends as the schema fold says, and raises `ValueError` only with a non-empty dictionary |
| `DictInvoiceContent.ValidateBody` | pdf_generation/invoice_content.py:140-165 | `validate` on any decoded body (object, array, text, number, Boolean or null) ends as the body's fold says, and raises `ValueError` only with a non-empty dictionary |
| `DictInvoiceContent.TopErrorsMeaning` | pdf_generation/invoice_content.py:144-162 | on a body that is not an object, the loop stops with `TypeError` at an entry whose `in` raises or whose key it finds and then indexes, and otherwise records exactly the names `in` finds absent |
| `DictInvoiceContent.NonObjectBody` | pdf_generation/invoice_content.py:144-165 | a body that is not an object never passes: `validate` raises `TypeError` exactly when some entry raises, and otherwise `ValueError` with every absent top-level name |
| `DictInvoiceContent.EmptyListBody` | pdf_generation/invoice_content.py:144-147 | the body `[]` reports all six top-level names as `Missing parameter` |
| `DictInvoiceContent.ScalarBodyRaises` | pdf_generation/invoice_content.py:145 | the body `null`, a number or a Boolean raises `TypeError` at the first `in` |
| `DictInvoiceContent.TextNamingAuthorRaises` | pdf_generation/invoice_content.py:145-161 | a text body containing `author` passes the first `in` and raises `TypeError` when it is indexed with `author` |
| `DictInvoiceContent.PassedExactly` | pdf_generation/invoice_content.py:164-165 | `validate` returns normally exactly when every schema entry is present, a list where one is expected, and has all its sub-keys |
| `DictInvoiceContent.TypeErrorExactly` | pdf_generation/invoice_content.py:154-161 | `validate` raises `TypeError` exactly when a checked value cannot be looked into |
| `DictInvoiceContent.NotIterableRaises` | pdf_generation/invoice_content.py:160-161 | a present section whose value is a number, a Boolean or null makes `validate` raise `TypeError` |
| `DictInvoiceContent.MissingTopLevel` | pdf_generation/invoice_content.py:144-147 | a missing top-level key records only `attr -> Missing parameter`; its sub-keys are not checked |
| `DictInvoiceContent.ServicesNotAList` | pdf_generation/invoice_content.py:149-152 | `services` present but not a list records only `services -> List expected` |
| `DictInvoiceContent.ServicesReported` | pdf_generation/invoice_content.py:154-158 | the `services` paths reported are exactly `services[i].sub` for each element missing a sub-key |
| `DictInvoiceContent.SectionReported` | pdf_generation/invoice_content.py:160-162 | the paths reported for a present section are exactly `attr.sub` for its absent sub-keys |
| `DictInvoiceContent.SectionSubMissing` | pdf_generation/invoice_content.py:160-162 | a listed sub-key absent from a present section is reported as `attr.sub -> Missing parameter` |
| `DictInvoiceContent.AuthorNameMissing` | tests/commons.py:120-130 | an author without `name` is turned down with `author.name -> Missing parameter` |
| `DictInvoiceContent.ExtraKeysIgnored` | pdf_generation/invoice_content.py:144 | keys outside the schema have no effect on `validate` |
| `DictInvoiceContent.GlnListConstant` | pdf_generation/invoice_content.py:107-109 | `GLN_list` is the same constant text for every invoice |
| `DictInvoiceContent.GenerateDatamatrixString` | pdf_generation/invoice_content.py:188-210 | no text when the ESR line or the SSN is missing or empty; otherwise exactly 169 characters built from the prefix and the service digits |
| `DictInvoiceContent.DatamatrixPrefixFields` | pdf_generation/invoice_content.py:192-198 | split on `#`, the fixed part is the ESR entry, both GLNs, the start date, the SSN, the birth date and `0` |
| `DictEntities.Gln` | pdf_generation/invoice_content.py:228-230 | the GLN is a 13-character text |
| `DictEntities.GlnIsConstant` | pdf_generation/invoice_content.py:228-230 | author and therapist both carry `2099999999999` |
| `DictEntities.EsrCodingLine` | pdf_generation/invoice_content.py:271-274 | the ESR line is the `ESR` entry when present and absent otherwise |
| `DictEntities.Ssn` | pdf_generation/invoice_content.py:340-342 | the SSN is the `SSN` entry when present and absent otherwise |
| `DictEntities.GenderCode` | pdf_generation/invoice_content.py:317-322 | `gender` is `H` exactly for `male`, `F` otherwise |
| `DictEntities.AddressParts` | pdf_generation/invoice_content.py:236-238 | `address` is street, ` · `, then ZIP, a space and city, and splits back at the middle dot |
| `DictEntities.NamesParts` | pdf_generation/invoice_content.py:282-284 | the patient's and therapist's names are first name, one space, last name, and give both back |
| `FieldRules.RemovePhoneWhitespace` | models/author.py:73-76 | the stripped phone has no space and contains exactly the other characters of the input; a phone without spaces is returned unchanged |
| `FieldRules.SpacesDoNotCount` | models/therapist.py:52-55 | inserting a space anywhere never changes the stripped phone |
| `FieldRules.TimestampBoundSharp` | models/invoice.py:65-71 | a raw timestamp is refused exactly when below -2·10^10 |
| `AuthorModel.ErrorsExactly` | models/author.py:12-71 | whenever building the author does not raise, an author field is reported exactly when it breaks its own constraint |
| `AuthorModel.LengthBounds` | models/author.py:12-32 | name is valid iff 1..70 characters, street and city iff 1..35, ZIP iff 1..9 |
| `AuthorModel.PhoneBound` | models/author.py:73-76 | building the author raises exactly when the phone is present but not a text (null, a number); an absent phone is reported; a text phone is accepted iff it has 1..25 characters (lines 34-39) once its spaces are removed |
| `AuthorModel.AcceptedMeansReported` | models/author.py:73-76 | an author with no failing field has a text phone, so its verdict is an empty report and never an exception |
| `AuthorModel.PhoneIgnoresSpaces` | models/author.py:73-76 | a space in the phone never changes its verdict |
| `AuthorModel.PatternConstraints` | models/author.py:46-71 | RCC, QR-IBAN, ESR id and ESR bank id, when present, are valid exactly when they have their declared form |
| `AuthorModel.QrIbanMeaning` | models/author.py:52-57 | the QR-IBAN pattern is `CH`, 2 digits, `3`, `0` or `1`, then 15 digits: 21 characters |
| `AuthorModel.EsrBankIdMeaning` | models/author.py:66-71 | the ESR bank id pattern is `01` followed by exactly 7 digits |
| `AuthorModel.MalformedIdentifiersRejected` | models/author.py:46-71 | the malformed RCC, ESR id and ESR bank id values of the test fixtures are rejected |
| `PatientModel.ErrorsExactly` | models/patient.py:12-87 | a patient field is reported exactly when it breaks its own constraint |
| `PatientModel.LengthBounds` | models/patient.py:12-39 | first name, last name, street and city are valid iff 1..35 characters, ZIP iff 1..9 |
| `PatientModel.CantonAsDeclared` | models/patient.py:41-73 | `canton` accepts exactly the 31 listed codes |
| `PatientModel.GenderAsDeclared` | models/patient.py:80-82 | `gender` accepts exactly `male` and `female` |
| `PatientModel.BirthdayBound` | models/patient.py:92-98 | a raw birthday below -2·10^10 is rejected, any other present value passes |
| `PatientModel.CombinedNameRule` | models/patient.py:100-113 | with both names valid, `first + " " + last` is rejected exactly when longer than 70, that is when both have 35 characters |
| `PatientModel.CombinedNameNeedsBothNames` | models/patient.py:103-109 | a name missing or refused on its own never triggers the combined bound |
| `TherapistModel.ErrorsExactly` | models/therapist.py:12-50 | whenever building the therapist does not raise, a therapist field is reported exactly when its own value breaks its own constraint |
| `TherapistModel.LengthBounds` | models/therapist.py:12-39 | first name, last name, street and city are valid iff 1..35 characters, ZIP iff 1..9 |
| `TherapistModel.PhoneBound` | models/therapist.py:52-55 | building the therapist raises exactly when the phone is present but not a text (null, a number); an absent phone is reported; a text phone is accepted iff it has 1..25 characters (lines 41-46) once its spaces are removed |
| `TherapistModel.AcceptedMeansReported` | models/therapist.py:52-55 | a therapist with no failing field has a text phone, so its verdict is an empty report and never an exception |
| `TherapistModel.PhoneIgnoresSpaces` | models/therapist.py:52-55 | a space in the phone never changes its verdict |
| `TherapistModel.RccAsDeclared` | models/therapist.py:48-50 | RCC, when present, is one upper-case letter followed by six digits |
| `TherapistModel.NoCrossFieldRule` | models/therapist.py:7-55 | a field's verdict depends on that field's value alone |
| `InvoiceModel.NonTextPhoneRaises` | models/invoice.py:26-33 | a null or numeric phone in the nested author or therapist makes building the invoice raise instead of reporting, whatever the other fields hold |
| `InvoiceModel.RaisedNeverEmpty` | models/invoice.py:26-33 | an invoice whose building raises always has something to report too, so the exception never hides an accepted invoice |
| `InvoiceModel.NoErrorsExactly` | models/invoice.py:19-71 | the invoice reports nothing exactly when each of its own constraints holds and the nested models report nothing |
| `InvoiceModel.AcceptedExactly` | models/invoice.py:19-71 | an invoice is built without raising and with nothing reported exactly when the id is absent or 24 hex characters, the nested models are present, built without raising and accepted, the price is positive, there are 1..5 services, the QR reference is absent or 27 digits and the raw timestamp is not below -2·10^10; each service must also pass the service model, which is not modelled |
| `InvoiceModel.MinDate` | models/invoice.py:82-86 | the earliest service date: one of the dates, and no date is earlier |
| `InvoiceModel.MaxDate` | models/invoice.py:82-86 | the latest service date: one of the dates, and no date is later |
| `InvoiceModel.TherapyDates` | models/invoice.py:82-86 | `therapy_dates` is a start no later than the end, both dates of some service, every service between them |
| `InvoiceModel.AcceptedHasTherapyDates` | models/invoice.py:43-48 | an accepted invoice has at least one service, so its therapy period exists |
| `Pattern.RccShapeMeaning` | models/author.py:46-50 | `^[A-Z][0-9]{6}$` is one upper-case letter followed by exactly six digits |
| `Pattern.DigitsMeaning` | models/invoice.py:50-55 | `[0-9]{n}` matches exactly the n-digit texts (27 for the QR reference, 6 for the ESR id) |
| `Pattern.HexMeaning` | models/invoice.py:19-24 | `[a-fA-F0-9]{n}` matches exactly the n-character hexadecimal texts |

## Left out

- Checksums: the QR-reference mod-10 table, the ISO 11649 mod-97 creditor reference and the IBAN MOD-97-10 check. No modelled file computes them. The invoice's `reference_type` and `reference` are inputs.
- Floating-point money: the accumulation of `total_amount`, the `%.2f` formatting and `int(float_amount)`. The total arrives as its formatted string, and each service as the integer part of its amount. `models/service.py` is not part of this model.
- Date and time work: `timestamp_to_datetime`, the `timestamp` text, `strftime` and the Europe/Zurich conversion. Dates arrive formatted (`dd.mm.yyyy`), and `therapy_dates` works on the services' raw timestamps.
- QR and Data Matrix image encoding (`generate_qr_code`, `generate_datamatrix`): they belong to external libraries.
- E-mail syntax (`EmailStr`): a foreign validator, passed in as the predicate `isEmail`.
- The pydantic type coercion and the error messages of the request models: a model's verdict is the list of failing fields, without messages. A null or non-text value in a field other than the phone is reported like an absent one. Of the pre-validators, only the phone's can raise an exception that escapes: the timestamp and birthday comparisons raise `TypeError` on null, which pydantic reports as a failing field.
- `DictEntities.Dict`: the decoded request entries the dictionary revision reads are texts. An `ESR` or `SSN` sent as a number, such as a falsy `0`, cannot be represented, so the falsy tests on them are modelled for `None` and the empty text only.
- The patterns of the request models are modelled as full matches. Python's `re.match` with `$` also accepts one trailing newline; `Pattern.RccWithNewlineAccepted` shows the difference on an RCC value, and the field constraints use the full match.
- The dictionary revision's accessors read keys without checking them (`KeyError` otherwise), so their functions require the keys they read; the schema check guarantees them for every schema key. Its `Author.IBAN` and `QR_reference` return constants and are not used by the modelled text.
- `InvoiceModel.AcceptedExactly`: each service must also be accepted by `models/service.py` (its own checks on `date`, `duration` and `code`; tests/test_model_service.py:51-99 shows durations 0 and 7, code 1 and missing or non-numeric values refused), which is not part of this model. A service here is its date alone, so the lemma's "exactly" covers only the invoice's own constraints, and an invoice with a refused service counts as accepted.
- `DictInvoiceContent.Errors`: the error dictionary is a map, so it loses the insertion order of Python's `missing_param`, which follows the schema order and is returned in that order as JSON.
- `PatientContent.RequestGendersGiveF`: the content revision compares the gender with `man` while the request model admits only `male` and `female`. The content revision also reads `firstname` and `zipcode`, which that request model does not define, so it was written against another revision of it. The mismatch is stated, not logged as a finding.
- `PatientContent.Attribute`: lists the property names to show which one the Data Matrix code looks up; it does not model Python attribute lookup in general.

## Findings

| source | as written | input that shows it | evidently intended | confidence | as-written member | corrected member |
|---|---|---|---|---|---|---|
| pdf_generation/contents/invoice_content.py:180 | the Data Matrix text reads `patient_content.birthday`, which `PatientContent` does not define, so it raises an attribute error whenever the ESR line exists | an author with `ESRId = "123456"` and `ESRBankId = "011234567"` | read the `birthdate` property | high, not executed | `InvoiceContent.DatamatrixAsWrittenNeverProduced` | `InvoiceContent.GenerateDatamatrixString` |
