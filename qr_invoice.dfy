/**
 * The text of the Swiss QR-bill code: a fixed sequence of fields separated by
 * CRLF, read by position. Header, creditor IBAN, creditor address, amount,
 * debtor address, remittance and additional information follow each other in
 * that order. As written, the text has no ultimate-creditor block, uses
 * version `0210`, always declares a `QRR` reference and carries the
 * space-grouped IBAN and reference of the invoice content.
 */
module QrInvoice {
  import Text
  import EntityContent
  import AuthorContent
  import PatientContent
  import InvoiceContent

  type Invoice = InvoiceContent.Invoice

  const Separator: string := "\r\n"

  const HeaderQrType: string := "SPC"
  const HeaderVersion: string := "0210"
  const HeaderCoding: string := "1"

  function Header(): string
  {
    HeaderQrType + Separator + HeaderVersion + Separator + HeaderCoding
  }

  /** The creditor's IBAN, as the author content prints it: in groups of four. */
  function CdtrInfIban(inv: Invoice): string
  {
    AuthorContent.Iban(inv.author)
  }

  function CdtrInf(inv: Invoice): string
  {
    CdtrInfIban(inv)
  }

  const CdtrAdrTp: string := "K"

  function CdtrName(inv: Invoice): string
  {
    AuthorContent.Name(inv.author)
  }

  function CdtrStrtNmOrAdrLine1(inv: Invoice): string
  {
    EntityContent.Street(inv.author.entity)
  }

  function CdtrBldgNbOrAdrLine2(inv: Invoice): string
  {
    EntityContent.ZipCity(inv.author.entity)
  }

  const CdtrPstCd: string := ""
  const CdtrTwnNm: string := ""
  const CdtrCtry: string := "CH"

  /** The creditor block, built field by field. */
  function Cdtr(inv: Invoice): string
  {
    var c := CdtrAdrTp;
    var c := c + Separator + CdtrName(inv);
    var c := c + Separator + CdtrStrtNmOrAdrLine1(inv);
    var c := c + Separator + CdtrBldgNbOrAdrLine2(inv);
    var c := c + Separator + CdtrPstCd;
    var c := c + Separator + CdtrTwnNm;
    c + Separator + CdtrCtry
  }

  function CcyAmtAmt(inv: Invoice): string
  {
    InvoiceContent.TotalAmount(inv)
  }

  const CcyAmtCcy: string := "CHF"

  function CcyAmt(inv: Invoice): string
  {
    CcyAmtAmt(inv) + Separator + CcyAmtCcy
  }

  const UltmtDbtrAdrTp: string := "K"

  function UltmtDbtrName(inv: Invoice): string
  {
    PatientContent.Name(inv.patient)
  }

  function UltmtDbtrStrtNmOrAdrLine1(inv: Invoice): string
  {
    inv.patient.street
  }

  function UltmtDbtrBldgNbOrAdrLine2(inv: Invoice): string
  {
    PatientContent.ZipCity(inv.patient)
  }

  const UltmtDbtrPstCd: string := ""
  const UltmtDbtrTwnNm: string := ""
  const UltmtDbtrCtry: string := "CH"

  /** The debtor block, filled from the patient, built field by field. */
  function UltmtDbtr(inv: Invoice): string
  {
    var d := UltmtDbtrAdrTp;
    var d := d + Separator + UltmtDbtrName(inv);
    var d := d + Separator + UltmtDbtrStrtNmOrAdrLine1(inv);
    var d := d + Separator + UltmtDbtrBldgNbOrAdrLine2(inv);
    var d := d + Separator + UltmtDbtrPstCd;
    var d := d + Separator + UltmtDbtrTwnNm;
    d + Separator + UltmtDbtrCtry
  }

  const RmtInfTp: string := "QRR"

  /** The reference, as the invoice content prints it, grouped by its type. */
  function RmtInfRef(inv: Invoice): string
  {
    InvoiceContent.Reference(inv)
  }

  function RmtInf(inv: Invoice): string
  {
    RmtInfTp + Separator + RmtInfRef(inv)
  }

  const AddInfUstrd: string := ""
  const AddInfTrailer: string := "EPD"
  const AddInfStrdBkgInf: string := ""

  function AddInf(): string
  {
    AddInfUstrd + Separator + AddInfTrailer + Separator + AddInfStrdBkgInf
  }

  /** `_generate_qr_code_string`: the blocks one after the other, each after a separator. */
  function GenerateQrCodeString(inv: Invoice): string
  {
    var q := Header();
    var q := q + Separator + CdtrInf(inv);
    var q := q + Separator + Cdtr(inv);
    var q := q + Separator + CcyAmt(inv);
    var q := q + Separator + UltmtDbtr(inv);
    var q := q + Separator + RmtInf(inv);
    q + Separator + AddInf()
  }

  /** The blocks of the code, in the order they are written. */
  function Blocks(inv: Invoice): seq<string>
  {
    [Header(), CdtrInf(inv), Cdtr(inv), CcyAmt(inv), UltmtDbtr(inv), RmtInf(inv), AddInf()]
  }

  /** The fields of each block, in order. */
  function HeaderFields(): seq<string>
  {
    ["SPC", "0210", "1"]
  }

  function CdtrFields(inv: Invoice): seq<string>
  {
    ["K", AuthorContent.Name(inv.author), EntityContent.Street(inv.author.entity),
     EntityContent.ZipCity(inv.author.entity), "", "", "CH"]
  }

  function CcyAmtFields(inv: Invoice): seq<string>
  {
    [InvoiceContent.TotalAmount(inv), "CHF"]
  }

  function UltmtDbtrFields(inv: Invoice): seq<string>
  {
    ["K", PatientContent.Name(inv.patient), inv.patient.street, PatientContent.ZipCity(inv.patient), "", "", "CH"]
  }

  function RmtInfFields(inv: Invoice): seq<string>
  {
    ["QRR", InvoiceContent.Reference(inv)]
  }

  function AddInfFields(): seq<string>
  {
    ["", "EPD", ""]
  }

  /** The 25 fields of the code, position by position. */
  function Fields(inv: Invoice): (r: seq<string>)
    ensures |r| == 25
  {
    HeaderFields() + [AuthorContent.Iban(inv.author)] + CdtrFields(inv) + CcyAmtFields(inv)
    + UltmtDbtrFields(inv) + RmtInfFields(inv) + AddInfFields()
  }

  /** Seven texts chained with a separator are the join of the seven. */
  lemma JoinSeven(a: string, b: string, c: string, d: string, e: string, f: string, g: string, sep: string)
    ensures Text.Join([a, b, c, d, e, f, g], sep) == a + sep + b + sep + c + sep + d + sep + e + sep + f + sep + g
  {
    var p2 := [a, b];
    var p3 := p2 + [c];
    var p4 := p3 + [d];
    var p5 := p4 + [e];
    var p6 := p5 + [f];
    assert [a, b, c, d, e, f, g] == p6 + [g];
    Text.JoinSnoc(p2, c, sep);
    Text.JoinSnoc(p3, d, sep);
    Text.JoinSnoc(p4, e, sep);
    Text.JoinSnoc(p5, f, sep);
    Text.JoinSnoc(p6, g, sep);
  }

  /** Three texts chained with a separator are the join of the three. */
  lemma JoinThree(a: string, b: string, c: string, sep: string)
    ensures Text.Join([a, b, c], sep) == a + sep + b + sep + c
  {
    Text.JoinSnoc([a, b], c, sep);
    assert [a, b] + [c] == [a, b, c];
  }

  /** Each block is the join of its own fields. */
  lemma BlockFields(inv: Invoice)
    ensures Header() == Text.Join(HeaderFields(), Separator)
    ensures CdtrInf(inv) == Text.Join([AuthorContent.Iban(inv.author)], Separator)
    ensures Cdtr(inv) == Text.Join(CdtrFields(inv), Separator)
    ensures CcyAmt(inv) == Text.Join(CcyAmtFields(inv), Separator)
    ensures UltmtDbtr(inv) == Text.Join(UltmtDbtrFields(inv), Separator)
    ensures RmtInf(inv) == Text.Join(RmtInfFields(inv), Separator)
    ensures AddInf() == Text.Join(AddInfFields(), Separator)
  {
    JoinThree("SPC", "0210", "1", Separator);
    var f := CdtrFields(inv);
    JoinSeven(f[0], f[1], f[2], f[3], f[4], f[5], f[6], Separator);
    var g := UltmtDbtrFields(inv);
    JoinSeven(g[0], g[1], g[2], g[3], g[4], g[5], g[6], Separator);
    JoinThree("", "EPD", "", Separator);
  }

  /** The code is its seven blocks in the fixed order, one separator between each two. */
  lemma BlockOrder(inv: Invoice)
    ensures GenerateQrCodeString(inv) == Text.Join(Blocks(inv), Separator)
  {
    var b := Blocks(inv);
    JoinSeven(b[0], b[1], b[2], b[3], b[4], b[5], b[6], Separator);
  }

  /** The code is its 25 fields, one separator between each two. */
  lemma PayloadIsJoinOfFields(inv: Invoice)
    ensures GenerateQrCodeString(inv) == Text.Join(Fields(inv), Separator)
  {
    BlockOrder(inv);
    BlockFields(inv);
    var h := HeaderFields();
    var i := [AuthorContent.Iban(inv.author)];
    var c := CdtrFields(inv);
    var a := CcyAmtFields(inv);
    var d := UltmtDbtrFields(inv);
    var r := RmtInfFields(inv);
    var x := AddInfFields();
    Text.JoinAppend(h, i, Separator);
    Text.JoinAppend(h + i, c, Separator);
    Text.JoinAppend(h + i + c, a, Separator);
    Text.JoinAppend(h + i + c + a, d, Separator);
    Text.JoinAppend(h + i + c + a + d, r, Separator);
    Text.JoinAppend(h + i + c + a + d + r, x, Separator);
    JoinSeven(Text.Join(h, Separator), Text.Join(i, Separator), Text.Join(c, Separator), Text.Join(a, Separator),
              Text.Join(d, Separator), Text.Join(r, Separator), Text.Join(x, Separator), Separator);
  }

  /** A value that cannot shift the positions of the fields after it. */
  predicate NoLineBreak(s: string)
  {
    !Text.Contains(s, Separator)
  }

  /** Every value the code takes from the invoice is free of CRLF. */
  predicate InsertedValuesClean(inv: Invoice)
  {
    && NoLineBreak(AuthorContent.Iban(inv.author))
    && NoLineBreak(AuthorContent.Name(inv.author))
    && NoLineBreak(EntityContent.Street(inv.author.entity))
    && NoLineBreak(EntityContent.ZipCity(inv.author.entity))
    && NoLineBreak(InvoiceContent.TotalAmount(inv))
    && NoLineBreak(PatientContent.Name(inv.patient))
    && NoLineBreak(inv.patient.street)
    && NoLineBreak(PatientContent.ZipCity(inv.patient))
    && NoLineBreak(InvoiceContent.Reference(inv))
  }

  /** A text without a carriage return holds no CRLF. */
  lemma {:induction false} NoCarriageReturn(s: string)
    requires '\r' !in s
    ensures NoLineBreak(s)
    decreases |s|
  {
    if |s| > 0 {
      assert s[0] != Separator[0];
      NoCarriageReturn(s[1..]);
    }
  }

  /** The constant fields hold no CRLF. */
  lemma ConstantsClean()
    ensures NoLineBreak("") && NoLineBreak("K") && NoLineBreak("CH") && NoLineBreak("CHF")
    ensures NoLineBreak("QRR") && NoLineBreak("EPD") && NoLineBreak("SPC") && NoLineBreak("0210") && NoLineBreak("1")
  {
    NoCarriageReturn("");
    NoCarriageReturn("K");
    NoCarriageReturn("CH");
    NoCarriageReturn("CHF");
    NoCarriageReturn("QRR");
    NoCarriageReturn("EPD");
    NoCarriageReturn("SPC");
    NoCarriageReturn("0210");
    NoCarriageReturn("1");
  }

  /** No field of `fs` holds a CRLF. */
  predicate AllClean(fs: seq<string>)
  {
    forall k :: 0 <= k < |fs| ==> NoLineBreak(fs[k])
  }

  lemma CleanAppend(a: seq<string>, b: seq<string>)
    requires AllClean(a) && AllClean(b)
    ensures AllClean(a + b)
  {
    assert forall k :: |a| <= k < |a + b| ==> (a + b)[k] == b[k - |a|];
  }

  lemma FieldsClean(inv: Invoice)
    requires InsertedValuesClean(inv)
    ensures AllClean(Fields(inv))
  {
    ConstantsClean();
    var h := HeaderFields();
    var i := [AuthorContent.Iban(inv.author)];
    var c := CdtrFields(inv);
    var a := CcyAmtFields(inv);
    var d := UltmtDbtrFields(inv);
    var r := RmtInfFields(inv);
    var x := AddInfFields();
    assert AllClean(h) && AllClean(i) && AllClean(c) && AllClean(a);
    assert AllClean(d) && AllClean(r) && AllClean(x);
    CleanAppend(h, i);
    CleanAppend(h + i, c);
    CleanAppend(h + i + c, a);
    CleanAppend(h + i + c + a, d);
    CleanAppend(h + i + c + a + d, r);
    CleanAppend(h + i + c + a + d + r, x);
  }

  lemma SeparatorBorderFree()
    ensures Text.BorderFree(Separator)
  {
    assert Separator[1..] == "\n" && Separator[..1] == "\r";
  }

  /**
   * When no inserted value holds a CRLF, a reader splitting the code on CRLF
   * gets back exactly the 25 fields, in order.
   */
  lemma PayloadLines(inv: Invoice)
    requires InsertedValuesClean(inv)
    ensures Text.Split(GenerateQrCodeString(inv), Separator) == Fields(inv)
    ensures |Text.Split(GenerateQrCodeString(inv), Separator)| == 25
  {
    PayloadIsJoinOfFields(inv);
    FieldsClean(inv);
    SeparatorBorderFree();
    Text.SplitJoin(Fields(inv), Separator);
  }

  /**
   * Read by position: the header, the display IBAN, the creditor block from
   * the author, the total and `CHF`, the debtor block from the patient,
   * `QRR` and the display reference, and the trailer between two empty fields.
   */
  lemma FieldPositions(inv: Invoice)
    ensures Fields(inv)[..3] == ["SPC", "0210", "1"]
    ensures Fields(inv)[3] == AuthorContent.Iban(inv.author)
    ensures Fields(inv)[4..11] ==
      ["K", AuthorContent.Name(inv.author), EntityContent.Street(inv.author.entity),
       EntityContent.ZipCity(inv.author.entity), "", "", "CH"]
    ensures Fields(inv)[11] == inv.totalAmount && Fields(inv)[12] == "CHF"
    ensures Fields(inv)[13..20] ==
      ["K", PatientContent.Name(inv.patient), inv.patient.street, PatientContent.ZipCity(inv.patient), "", "", "CH"]
    ensures Fields(inv)[20] == "QRR" && Fields(inv)[21] == InvoiceContent.Reference(inv)
    ensures Fields(inv)[22..] == ["", "EPD", ""]
  {
  }

  /** The code always opens with `SPC`, CRLF, `0210`, CRLF, `1`. */
  lemma PayloadStart(inv: Invoice)
    ensures Text.IsPrefix("SPC\r\n0210\r\n1", GenerateQrCodeString(inv))
  {
    var q := GenerateQrCodeString(inv);
    assert Header() == "SPC\r\n0210\r\n1";
    assert q == Header() + (q[|Header()|..]);
  }

  /** The code always closes with CRLF, `EPD`, CRLF: the trailer sits between two empty fields. */
  lemma PayloadEnd(inv: Invoice)
    ensures |GenerateQrCodeString(inv)| >= 7
    ensures GenerateQrCodeString(inv)[|GenerateQrCodeString(inv)| - 7..] == "\r\nEPD\r\n"
  {
    var b := Blocks(inv);
    BlockOrder(inv);
    assert b == b[..6] + [AddInf()];
    Text.JoinSnoc(b[..6], AddInf(), Separator);
    var front := Text.Join(b[..6], Separator) + Separator;
    assert GenerateQrCodeString(inv) == front + AddInf();
    assert AddInf() == "\r\nEPD\r\n";
    assert (front + AddInf())[|front|..] == AddInf();
  }

  /**
   * The remittance type is `QRR` whatever the invoice's reference type; only
   * the grouping of the printed reference follows the type.
   */
  lemma RemittanceTypeFixed(inv: Invoice, referenceType: string)
    ensures Fields(inv.(reference_type := referenceType))[20] == "QRR"
    ensures Fields(inv.(reference_type := referenceType))[..20] == Fields(inv)[..20]
    ensures Fields(inv.(reference_type := referenceType))[22..] == Fields(inv)[22..]
  {
  }

  /** The IBAN field is the author's IBAN in groups of four: removing its spaces gives back the raw IBAN. */
  lemma IbanFieldIsDisplayIban(inv: Invoice)
    requires ' ' !in inv.author.IBAN
    ensures Text.RemoveAll(Fields(inv)[3], ' ') == inv.author.IBAN
  {
    AuthorContent.IbanRoundTrip(inv.author);
  }
}
