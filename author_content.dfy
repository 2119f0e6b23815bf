/**
 * The text the invoice shows for its author: name and e-mail as given, and
 * the IBAN printed in groups of four characters.
 */
module AuthorContent {
  import opened Wrappers
  import Text
  import EntityContent

  /**
   * The author fields the content reads. `ESRId` and `ESRBankId` are read
   * from the same author by the invoice content.
   */
  datatype Author = Author(
    entity: EntityContent.Entity,
    name: string,
    email: string,
    IBAN: string,
    ESRId: Option<string>,
    ESRBankId: Option<string>)

  function Name(a: Author): string
  {
    a.name
  }

  function Email(a: Author): string
  {
    a.email
  }

  /** `iban`: the IBAN cut into 4-character groups, joined by single spaces. */
  function Iban(a: Author): string
  {
    Text.Join(Text.Chunks(a.IBAN, 4), " ")
  }

  /** `name` and `email` return the author's fields unchanged. */
  lemma PassThrough(a: Author)
    ensures Name(a) == a.name && Email(a) == a.email
  {
  }

  /**
   * The grouping only inserts spaces: removing them gives back the IBAN, and
   * splitting on a space gives back the groups, each of four characters except
   * possibly the last, which has one to four.
   */
  lemma IbanRoundTrip(a: Author)
    requires ' ' !in a.IBAN
    ensures Text.RemoveAll(Iban(a), ' ') == a.IBAN
    ensures a.IBAN != "" ==> Text.Split(Iban(a), " ") == Text.Chunks(a.IBAN, 4)
  {
    var groups := Text.Chunks(a.IBAN, 4);
    Text.ChunksShape(a.IBAN, 4);
    Text.ChunksAvoid(a.IBAN, 4, ' ');
    Text.RemoveAllJoin(groups, ' ');
    if a.IBAN != "" {
      assert Text.BorderFree(" ");
      forall i | 0 <= i < |groups| ensures !Text.Contains(groups[i], " ") {
        Text.ContainsChar(groups[i], ' ');
      }
      Text.SplitJoin(groups, " ");
    }
  }

  /** Every group has four characters except possibly the last, which has one to four. */
  lemma IbanGroups(a: Author)
    ensures var g := Text.Chunks(a.IBAN, 4);
      && (forall i :: 0 <= i < |g| - 1 ==> |g[i]| == 4)
      && (forall i :: 0 <= i < |g| ==> 1 <= |g[i]| <= 4)
      && Text.Concat(g) == a.IBAN
  {
    Text.ChunksShape(a.IBAN, 4);
  }

  /** A 21-character IBAN, the length of a Swiss one, prints as 6 groups in 26 characters. */
  lemma SwissIbanLayout(a: Author)
    requires |a.IBAN| == 21
    ensures |Text.Chunks(a.IBAN, 4)| == 6
    ensures |Iban(a)| == 26
  {
    var g := Text.Chunks(a.IBAN, 4);
    Text.ChunksShape(a.IBAN, 4);
    assert |g| == 6 by {
      assert (|g| - 1) * 4 < 21 <= |g| * 4;
    }
    Text.JoinLength(g, ' ');
  }

  /** An empty IBAN has no groups and prints as the empty string. */
  lemma EmptyIban(a: Author)
    requires a.IBAN == ""
    ensures Text.Chunks(a.IBAN, 4) == [] && Iban(a) == ""
  {
  }
}
