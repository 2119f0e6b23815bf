/**
 * The text the current invoice revision derives from its content objects:
 * paid and owed amounts, the printed reference, the ESR coding line, the GLN
 * list and the Data Matrix text. Amounts and dates arrive already formatted;
 * each service contributes the integer part of its amount.
 */
module InvoiceContent {
  import opened Wrappers
  import Text
  import EntityContent
  import AuthorContent
  import TherapistContent
  import PatientContent
  import Datamatrix

  datatype Invoice = Invoice(
    author: AuthorContent.Author,
    therapist: TherapistContent.Therapist,
    patient: PatientContent.Patient,
    paid: bool,
    reference_type: string,
    reference: string,
    QRReference: Option<string>,
    /** `"%.2f" % total_amount` */
    totalAmount: string,
    /** the first therapy date, formatted `dd.mm.yyyy` */
    therapyStartDate: string,
    /** `int(service.float_amount)` for each service, in order */
    serviceAmounts: seq<int>)

  const ZeroAmount: string := "0.00"

  function TotalAmount(inv: Invoice): string
  {
    inv.totalAmount
  }

  /** `paid_amount`: the total once paid, nothing before. */
  function PaidAmount(inv: Invoice): string
  {
    if inv.paid then TotalAmount(inv) else ZeroAmount
  }

  /** `owed_amount`: nothing once paid, the total before. */
  function OwedAmount(inv: Invoice): string
  {
    if inv.paid then ZeroAmount else TotalAmount(inv)
  }

  /** One of the two amounts is the total and the other is zero, and paying swaps them. */
  lemma PaidOwedComplementary(inv: Invoice)
    ensures inv.paid ==> PaidAmount(inv) == inv.totalAmount && OwedAmount(inv) == "0.00"
    ensures !inv.paid ==> PaidAmount(inv) == "0.00" && OwedAmount(inv) == inv.totalAmount
    ensures PaidAmount(inv) == OwedAmount(inv.(paid := !inv.paid))
    ensures OwedAmount(inv) == PaidAmount(inv.(paid := !inv.paid))
  {
  }

  /** How many characters of a QR reference form its leading group: `reference[0:2]`. */
  function QrrHeadLength(reference: string): nat
  {
    if |reference| < 2 then |reference| else 2
  }

  /** The groups a QR reference is printed in: its first two characters, then groups of five. */
  function QrrGroups(reference: string): seq<string>
  {
    var k := QrrHeadLength(reference);
    [reference[..k]] + Text.Chunks(reference[k..], 5)
  }

  /** `reference`: SCOR references in groups of four, QR references as 2 + 5 + 5 ..., others unchanged. */
  function Reference(inv: Invoice): string
  {
    if inv.reference_type == "SCOR" then Text.Join(Text.Chunks(inv.reference, 4), " ")
    else if inv.reference_type == "QRR" then Text.Join(QrrGroups(inv.reference), " ")
    else inv.reference
  }

  /** The grouped SCOR reference only adds spaces: removing them gives back the reference. */
  lemma ScorReference(inv: Invoice)
    requires inv.reference_type == "SCOR"
    ensures var g := Text.Chunks(inv.reference, 4);
      && (forall i :: 0 <= i < |g| - 1 ==> |g[i]| == 4)
      && (forall i :: 0 <= i < |g| ==> 1 <= |g[i]| <= 4)
      && (' ' !in inv.reference ==> Text.RemoveAll(Reference(inv), ' ') == inv.reference)
  {
    Text.ChunksShape(inv.reference, 4);
    if ' ' !in inv.reference {
      Text.ChunksAvoid(inv.reference, 4, ' ');
      Text.RemoveAllJoin(Text.Chunks(inv.reference, 4), ' ');
    }
  }

  /**
   * The grouped QR reference only adds spaces, its first group is the first
   * two characters, and every later group but the last has five.
   */
  lemma QrrReference(inv: Invoice)
    requires inv.reference_type == "QRR"
    ensures var g := QrrGroups(inv.reference);
      && g[0] == inv.reference[..QrrHeadLength(inv.reference)]
      && (|inv.reference| >= 2 ==> |g[0]| == 2)
      && (forall i :: 1 <= i < |g| - 1 ==> |g[i]| == 5)
      && (forall i :: 1 <= i < |g| ==> 1 <= |g[i]| <= 5)
      && (' ' !in inv.reference ==> Text.RemoveAll(Reference(inv), ' ') == inv.reference)
  {
    var r := inv.reference;
    var k := QrrHeadLength(r);
    var tail := Text.Chunks(r[k..], 5);
    Text.ChunksShape(r[k..], 5);
    var g := QrrGroups(r);
    assert forall i :: 1 <= i < |g| ==> g[i] == tail[i - 1];
    if ' ' !in r {
      assert ' ' !in r[k..];
      Text.ChunksAvoid(r[k..], 5, ' ');
      assert forall i :: 0 <= i < |g| ==> ' ' !in g[i];
      Text.RemoveAllJoin(g, ' ');
      assert Text.Concat(g) == r[..k] + Text.Concat(tail);
      assert r[..k] + r[k..] == r;
    }
  }

  /** A 27-digit QR reference prints as 6 groups (2, then five of 5), 32 characters in all. */
  lemma QrrReference27(inv: Invoice)
    requires inv.reference_type == "QRR" && |inv.reference| == 27
    ensures |QrrGroups(inv.reference)| == 6
    ensures |Reference(inv)| == 32
  {
    var r := inv.reference;
    var tail := Text.Chunks(r[2..], 5);
    Text.ChunksShape(r[2..], 5);
    assert |tail| == 5 by {
      assert (|tail| - 1) * 5 < 25 <= |tail| * 5;
    }
    var g := QrrGroups(r);
    Text.JoinLength(g, ' ');
    assert Text.Concat(g) == r[..2] + Text.Concat(tail);
  }

  /** Any other reference type prints the reference unchanged. */
  lemma OtherReference(inv: Invoice)
    requires inv.reference_type != "SCOR" && inv.reference_type != "QRR"
    ensures Reference(inv) == inv.reference
  {
  }

  /** The amount field of the ESR line: the total without its dots, left-padded with `0` to 10 characters. */
  function EsrAmount(total: string): (r: string)
    ensures '.' !in r
    ensures |r| == if |Text.RemoveAll(total, '.')| >= 10 then |Text.RemoveAll(total, '.')| else 10
    ensures r[|r| - |Text.RemoveAll(total, '.')|..] == Text.RemoveAll(total, '.')
    ensures forall i :: 0 <= i < |r| - |Text.RemoveAll(total, '.')| ==> r[i] == '0'
  {
    var digits := Text.RemoveAll(total, '.');
    var r := Text.LeftPad(digits, 10, '0');
    assert '.' !in r by {
      forall i | 0 <= i < |r| ensures r[i] != '.' {
        if i >= |r| - |digits| { assert r[i] == digits[i - (|r| - |digits|)]; }
      }
    }
    r
  }

  /** `esr_coding_line`: absent unless both ESR identifiers are given and non-empty. */
  function EsrCodingLine(inv: Invoice): Option<string>
  {
    if Falsy(inv.author.ESRId) || Falsy(inv.author.ESRBankId) then None
    else Some("01" + EsrAmount(inv.totalAmount) + ">" + inv.author.ESRId.value + PyStr(inv.QRReference)
              + "+ " + inv.author.ESRBankId.value)
  }

  /**
   * The line exists exactly when both identifiers are non-empty. It then starts
   * with `01` and the padded amount, and when the identifiers hold no `>` the
   * part after the first `>` is the ESR identifier, the QR reference as Python
   * renders it (`None` when absent), `+ ` and the bank identifier.
   */
  lemma EsrCodingLineLayout(inv: Invoice)
    ensures EsrCodingLine(inv).None? <==> Falsy(inv.author.ESRId) || Falsy(inv.author.ESRBankId)
    ensures EsrCodingLine(inv).Some? ==>
      var line := EsrCodingLine(inv).value;
      var amount := EsrAmount(inv.totalAmount);
      && |line| > 2 + |amount|
      && line[..2] == "01" && line[2..2 + |amount|] == amount && line[2 + |amount|] == '>'
      && ('>' !in inv.totalAmount ==>
            Text.Partition(line, '>') == ("01" + amount,
              inv.author.ESRId.value + PyStr(inv.QRReference) + "+ " + inv.author.ESRBankId.value))
  {
    if EsrCodingLine(inv).Some? {
      var amount := EsrAmount(inv.totalAmount);
      var rest := inv.author.ESRId.value + PyStr(inv.QRReference) + "+ " + inv.author.ESRBankId.value;
      var line := EsrCodingLine(inv).value;
      assert line == ("01" + amount) + ['>'] + rest;
      if '>' !in inv.totalAmount {
        assert '>' !in amount by {
          var digits := Text.RemoveAll(inv.totalAmount, '.');
          Text.RemoveAllKeeps(inv.totalAmount, '.', '>');
          forall i | 0 <= i < |amount| ensures amount[i] != '>' {
            if i >= |amount| - |digits| { assert amount[i] == digits[i - (|amount| - |digits|)]; }
          }
        }
        Text.PartitionJoin("01" + amount, rest, '>');
      }
    }
  }

  /** A missing QR reference is written into the line as the four letters `None`. */
  lemma MissingQrReferenceWrittenAsNone(inv: Invoice)
    requires EsrCodingLine(inv).Some? && inv.QRReference.None?
    ensures Text.Contains(EsrCodingLine(inv).value, "None")
  {
    var pre := "01" + EsrAmount(inv.totalAmount) + ">" + inv.author.ESRId.value;
    var post := "+ " + inv.author.ESRBankId.value;
    ContainsMiddle(pre, "None", post);
    assert EsrCodingLine(inv).value == pre + "None" + post;
  }

  lemma {:induction false} ContainsMiddle(pre: string, sub: string, post: string)
    ensures Text.Contains(pre + sub + post, sub)
    decreases |pre|
  {
    if |pre| == 0 {
      assert (pre + sub + post)[..|sub|] == sub;
    } else {
      ContainsMiddle(pre[1..], sub, post);
      assert (pre + sub + post)[1..] == pre[1..] + sub + post;
    }
  }

  /** `gln_list`: the author's GLN as 1, the therapist's as 2. */
  function GlnList(inv: Invoice): string
  {
    "1/" + EntityContent.Gln(inv.author.entity) + " 2/" + EntityContent.Gln(inv.therapist.entity)
  }

  /** Author and therapist carry the same placeholder GLN, so the list is the same for every invoice. */
  lemma GlnListConstant(inv: Invoice)
    ensures GlnList(inv) == "1/2099999999999 2/2099999999999"
  {
  }

  /**
   * The Data Matrix text as written: it reads a `birthday` property, which the
   * patient content does not have, so once there is an ESR line it raises
   * `AttributeError` instead of producing text.
   */
  function DatamatrixAsWritten(inv: Invoice): Result<Option<string>, string>
  {
    var line := EsrCodingLine(inv);
    if Falsy(line) then Success(None)
    else
      match PatientContent.Attribute(inv.patient, "birthday")
      case None => Failure("AttributeError")
      case Some(birthday) =>
        Success(Some(Datamatrix.FitToLength(
          Datamatrix.Prefix(line.value, EntityContent.Gln(inv.author.entity), EntityContent.Gln(inv.therapist.entity),
                            inv.therapyStartDate, PatientContent.Ssn(inv.patient), birthday)
          + Datamatrix.ServiceDigits(inv.serviceAmounts))))
  }

  /** The as-written text never exists: no ESR line gives none, an ESR line gives the error. */
  lemma DatamatrixAsWrittenNeverProduced(inv: Invoice)
    ensures EsrCodingLine(inv).None? ==> DatamatrixAsWritten(inv) == Success(None)
    ensures EsrCodingLine(inv).Some? ==> DatamatrixAsWritten(inv) == Failure("AttributeError")
  {
    PatientContent.NoBirthdayProperty(inv.patient);
    EsrLineNotEmpty(inv);
  }

  /** An ESR line starts with `01`, so it is never the empty, falsy, text. */
  lemma EsrLineNotEmpty(inv: Invoice)
    ensures Falsy(EsrCodingLine(inv)) <==> EsrCodingLine(inv).None?
  {
    EsrCodingLineLayout(inv);
  }

  /** The fixed part of the Data Matrix text, with the patient's `birthdate` where `birthday` was meant. */
  function DatamatrixPrefix(inv: Invoice): string
    requires EsrCodingLine(inv).Some?
  {
    Datamatrix.Prefix(EsrCodingLine(inv).value, EntityContent.Gln(inv.author.entity),
                      EntityContent.Gln(inv.therapist.entity), inv.therapyStartDate,
                      PatientContent.Ssn(inv.patient), inv.patient.birthdate)
  }

  /**
   * `_generate_datamatrix_string`, reading the patient's `birthdate`: no text
   * without an ESR line, and otherwise the prefix and one digit per service,
   * forced to exactly 169 characters.
   */
  method GenerateDatamatrixString(inv: Invoice) returns (r: Option<string>)
    ensures r.None? <==> Falsy(inv.author.ESRId) || Falsy(inv.author.ESRBankId)
    ensures r.Some? ==>
      && EsrCodingLine(inv).Some? && |r.value| == 169
      && r.value == Datamatrix.FitToLength(DatamatrixPrefix(inv) + Datamatrix.ServiceDigits(inv.serviceAmounts))
  {
    var line := EsrCodingLine(inv);
    EsrLineNotEmpty(inv);
    EsrCodingLineLayout(inv);
    if Falsy(line) {
      return None;
    }
    var s := Datamatrix.Assemble(DatamatrixPrefix(inv), inv.serviceAmounts);
    r := Some(s);
  }

  /**
   * Split on `#`, the fixed part holds the ESR line, the two GLNs, the start
   * date, an empty SSN, the birth date and the due amount `0`, when none of
   * the inserted texts holds a `#`.
   */
  lemma DatamatrixPrefixFields(inv: Invoice)
    requires EsrCodingLine(inv).Some? && '#' !in EsrCodingLine(inv).value
    requires '#' !in inv.therapyStartDate && '#' !in inv.patient.birthdate
    ensures Text.Split(DatamatrixPrefix(inv), "#") ==
      [EsrCodingLine(inv).value, "2099999999999", "2099999999999", inv.therapyStartDate, "",
       inv.patient.birthdate, "0", ""]
  {
    Datamatrix.PrefixFields(EsrCodingLine(inv).value, EntityContent.Gln(inv.author.entity),
                            EntityContent.Gln(inv.therapist.entity), inv.therapyStartDate,
                            PatientContent.Ssn(inv.patient), inv.patient.birthdate);
  }
}
