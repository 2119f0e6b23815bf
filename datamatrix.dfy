/**
 * The Data Matrix text both invoice revisions build: a `#`-separated prefix,
 * one digit and one `#` per service, the whole forced to exactly 169
 * characters by keeping its end or padding it with `0`.
 */
module Datamatrix {
  import Text

  const Separator: char := '#'

  /** The length every Data Matrix text is brought to. */
  const Length: nat := 169

  /** The due amount written into every Data Matrix text. */
  const DueAmount: string := "0"

  /** The fixed part: six fields and the due amount, each followed by `#`. */
  function Prefix(esr: string, authorGln: string, therapistGln: string, therapyStartDate: string,
                  ssn: string, birthdate: string): string
  {
    esr + "#" + authorGln + "#" + therapistGln + "#" + therapyStartDate + "#" + ssn + "#" + birthdate + "#"
    + DueAmount + "#"
  }

  /** The fixed part always ends with the due amount `0` and a `#`, right before the service digits. */
  lemma PrefixEndsWithDue(esr: string, authorGln: string, therapistGln: string, therapyStartDate: string,
                          ssn: string, birthdate: string)
    ensures var p := Prefix(esr, authorGln, therapistGln, therapyStartDate, ssn, birthdate);
      |p| >= 8 && p[|p| - 2..] == "0#"
  {
    var fields := esr + "#" + authorGln + "#" + therapistGln + "#" + therapyStartDate + "#" + ssn + "#" + birthdate + "#";
    assert Prefix(esr, authorGln, therapistGln, therapyStartDate, ssn, birthdate) == fields + "0#";
    assert (fields + "0#")[|fields|..] == "0#";
  }

  /** `int(service.float_amount) % 10`: the last digit of the integer part (never negative, as in Python). */
  function ServiceDigit(amount: int): (c: char)
    ensures '0' <= c <= '9'
  {
    Text.DigitChar(amount % 10)
  }

  /** What the service loop appends: for each service, its digit then `#`. */
  function ServiceDigits(amounts: seq<int>): string
    decreases |amounts|
  {
    if |amounts| == 0 then ""
    else ServiceDigits(amounts[..|amounts| - 1]) + [ServiceDigit(amounts[|amounts| - 1]), Separator]
  }

  /** The appended text has two characters per service: at `2k` the digit of service `k`, at `2k + 1` a `#`. */
  lemma {:induction false} ServiceDigitsShape(amounts: seq<int>)
    ensures |ServiceDigits(amounts)| == 2 * |amounts|
    ensures forall k :: 0 <= k < |amounts| ==>
      ServiceDigits(amounts)[2 * k] == ServiceDigit(amounts[k]) && ServiceDigits(amounts)[2 * k + 1] == '#'
    decreases |amounts|
  {
    if |amounts| > 0 {
      var init := amounts[..|amounts| - 1];
      ServiceDigitsShape(init);
      assert forall k :: 0 <= k < |init| ==> init[k] == amounts[k];
    }
  }

  /** Forcing to 169 characters: the last 169 when longer, padded with `0` when shorter. */
  function FitToLength(s: string): (r: string)
    ensures |r| == Length
    ensures |s| >= Length ==> r == s[|s| - Length..]
    ensures |s| < Length ==> r[..|s|] == s && forall i :: |s| <= i < Length ==> r[i] == '0'
  {
    if |s| > Length then s[|s| - Length..]
    else if |s| < Length then Text.RightPad(s, Length, '0')
    else s
  }

  /** A text already 169 characters long is left as it is, so forcing twice is forcing once. */
  lemma FitIdempotent(s: string)
    ensures |s| == Length ==> FitToLength(s) == s
    ensures FitToLength(FitToLength(s)) == FitToLength(s)
  {
  }

  /**
   * The loop of both revisions: start from the prefix, append each service's
   * digit and `#`, then force the result to 169 characters.
   */
  method Assemble(prefix: string, amounts: seq<int>) returns (r: string)
    ensures r == FitToLength(prefix + ServiceDigits(amounts))
    ensures |r| == Length
  {
    var s := prefix;
    var i := 0;
    while i < |amounts|
      invariant 0 <= i <= |amounts|
      invariant s == prefix + ServiceDigits(amounts[..i])
    {
      assert amounts[..i + 1][..i] == amounts[..i];
      s := s + [ServiceDigit(amounts[i]), Separator];
      i := i + 1;
    }
    assert amounts[..i] == amounts;
    if |s| > Length {
      s := s[|s| - Length..];
    } else if |s| < Length {
      s := Text.RightPad(s, Length, '0');
    }
    r := s;
  }

  /**
   * When the fields hold no `#`, splitting the prefix on `#` gives back the six
   * fields in order, the due amount `0`, and the empty text after the last `#`.
   */
  lemma PrefixFields(esr: string, authorGln: string, therapistGln: string, therapyStartDate: string,
                     ssn: string, birthdate: string)
    requires '#' !in esr && '#' !in authorGln && '#' !in therapistGln
    requires '#' !in therapyStartDate && '#' !in ssn && '#' !in birthdate
    ensures Text.Split(Prefix(esr, authorGln, therapistGln, therapyStartDate, ssn, birthdate), "#")
      == [esr, authorGln, therapistGln, therapyStartDate, ssn, birthdate, DueAmount, ""]
  {
    var parts := [esr, authorGln, therapistGln, therapyStartDate, ssn, birthdate, DueAmount, ""];
    var p2 := [esr, authorGln];
    var p3 := p2 + [therapistGln];
    var p4 := p3 + [therapyStartDate];
    var p5 := p4 + [ssn];
    var p6 := p5 + [birthdate];
    var p7 := p6 + [DueAmount];
    assert parts == p7 + [""];
    Text.JoinSnoc(p2, therapistGln, "#");
    Text.JoinSnoc(p3, therapyStartDate, "#");
    Text.JoinSnoc(p4, ssn, "#");
    Text.JoinSnoc(p5, birthdate, "#");
    Text.JoinSnoc(p6, DueAmount, "#");
    Text.JoinSnoc(p7, "", "#");
    assert Text.Join(parts, "#") == Prefix(esr, authorGln, therapistGln, therapyStartDate, ssn, birthdate);
    forall i | 0 <= i < |parts| ensures !Text.Contains(parts[i], "#") {
      Text.ContainsChar(parts[i], '#');
    }
    Text.SplitJoin(parts, "#");
  }
}
