/**
 * The regular expressions of the request models. Every one of them is anchored
 * (`^...$`) and of fixed length, so a pattern is one character class per position.
 */
module Pattern {

  /** A bracket expression such as `[a-fA-F0-9]`, as a list of inclusive ranges. */
  type CharClass = seq<(char, char)>

  /** A fixed-length pattern: the class each position must belong to. */
  type Shape = seq<CharClass>

  /** `c` lies in one of the ranges of `cls`. */
  predicate InClass(c: char, cls: CharClass)
    decreases |cls|
  {
    |cls| > 0 && ((cls[0].0 <= c <= cls[0].1) || InClass(c, cls[1..]))
  }

  /** The class holding the single character `c` (a literal in the pattern). */
  function Lit(c: char): CharClass
  {
    [(c, c)]
  }

  /** `[0-9]` */
  const Digit: CharClass := [('0', '9')]

  /** `[A-Z]` */
  const Upper: CharClass := [('A', 'Z')]

  /** `[a-fA-F0-9]` */
  const HexDigit: CharClass := [('a', 'f'), ('A', 'F'), ('0', '9')]

  /** `cls{n}` */
  function Times(cls: CharClass, n: nat): (p: Shape)
    ensures |p| == n
    ensures forall i :: 0 <= i < n ==> p[i] == cls
  {
    seq(n, _ => cls)
  }

  /** `^[A-Z][0-9]{6}$`, the RCC number of authors and therapists. */
  const RccShape: Shape := [Upper] + Times(Digit, 6)

  /** `s` is exactly one character of each class, in order. */
  predicate FullMatch(p: Shape, s: string)
  {
    |s| == |p| && forall i :: 0 <= i < |s| ==> InClass(s[i], p[i])
  }

  /**
   * What `re.match` accepts for the anchored pattern: Python's `$` matches at
   * the end of the text and also just before a final newline.
   */
  predicate PyAnchoredMatch(p: Shape, s: string)
  {
    FullMatch(p, s) || (|s| == |p| + 1 && s[|p|] == '\n' && FullMatch(p, s[..|p|]))
  }

  /** Every text the pattern describes, followed by one newline, is accepted as written but is not a match. */
  lemma TrailingNewlineAccepted(p: Shape, s: string)
    requires FullMatch(p, s)
    ensures PyAnchoredMatch(p, s + "\n")
    ensures !FullMatch(p, s + "\n")
  {
    assert (s + "\n")[..|p|] == s;
  }

  /** An RCC value with a line break after it passes the model's check as written. */
  lemma RccWithNewlineAccepted()
    ensures PyAnchoredMatch(RccShape, "V123123\n")
    ensures !FullMatch(RccShape, "V123123\n")
  {
    RccShapeMeaning("V123123");
    TrailingNewlineAccepted(RccShape, "V123123");
  }

  /** The pattern matching exactly the literal text `t` (no special characters). */
  function Literal(t: string): (p: Shape)
    ensures |p| == |t|
    ensures forall i :: 0 <= i < |t| ==> p[i] == Lit(t[i])
  {
    seq(|t|, i requires 0 <= i < |t| => Lit(t[i]))
  }

  /** A literal pattern matches its own text and nothing else. */
  lemma LiteralMeaning(t: string, s: string)
    ensures FullMatch(Literal(t), s) <==> s == t
  {
    if |s| == |t| {
      forall i | 0 <= i < |s|
        ensures InClass(s[i], Literal(t)[i]) <==> s[i] == t[i]
      {
        LitClass(t[i], s[i]);
      }
    }
  }

  /** Matching a concatenation is matching each half against its share of the text. */
  lemma FullMatchAppend(p: Shape, q: Shape, s: string)
    ensures FullMatch(p + q, s) <==> |s| == |p| + |q| && FullMatch(p, s[..|p|]) && FullMatch(q, s[|p|..])
  {
    if |s| == |p| + |q| {
      forall i | 0 <= i < |p|
        ensures (p + q)[i] == p[i] && s[..|p|][i] == s[i]
      {
      }
      forall i | |p| <= i < |s|
        ensures (p + q)[i] == q[i - |p|] && s[|p|..][i - |p|] == s[i]
      {
      }
    }
  }

  /** Every character of `s` is a decimal digit. */
  predicate AllDigits(s: string)
  {
    forall i :: 0 <= i < |s| ==> '0' <= s[i] <= '9'
  }

  /** Every character of `s` is a hexadecimal digit, in either case. */
  predicate AllHex(s: string)
  {
    forall i :: 0 <= i < |s| ==> ('a' <= s[i] <= 'f' || 'A' <= s[i] <= 'F' || '0' <= s[i] <= '9')
  }

  lemma DigitClass(c: char)
    ensures InClass(c, Digit) <==> '0' <= c <= '9'
  {
    assert Digit[1..] == [];
  }

  lemma HexClass(c: char)
    ensures InClass(c, HexDigit) <==> ('a' <= c <= 'f' || 'A' <= c <= 'F' || '0' <= c <= '9')
  {
    assert HexDigit[1..] == [('A', 'F'), ('0', '9')];
    assert HexDigit[1..][1..] == [('0', '9')];
    assert HexDigit[1..][1..][1..] == [];
  }

  lemma LitClass(c: char, x: char)
    ensures InClass(x, Lit(c)) <==> x == c
  {
    assert Lit(c)[1..] == [];
  }

  /** `[0-9]{n}` matches exactly the `n`-digit texts. */
  lemma DigitsMeaning(n: nat, s: string)
    ensures FullMatch(Times(Digit, n), s) <==> |s| == n && AllDigits(s)
  {
    forall i | 0 <= i < |s| && i < n {
      DigitClass(s[i]);
    }
  }

  /** `[a-fA-F0-9]{n}` matches exactly the `n`-character hexadecimal texts. */
  lemma HexMeaning(n: nat, s: string)
    ensures FullMatch(Times(HexDigit, n), s) <==> |s| == n && AllHex(s)
  {
    forall i | 0 <= i < |s| && i < n {
      HexClass(s[i]);
    }
  }

  /** `^[A-Z][0-9]{6}$` is one upper-case letter followed by exactly six digits. */
  lemma RccShapeMeaning(s: string)
    ensures FullMatch(RccShape, s) <==> |s| == 7 && 'A' <= s[0] <= 'Z' && AllDigits(s[1..])
  {
    assert Upper[1..] == [];
    if |s| == 7 {
      forall i | 1 <= i < 7
        ensures (InClass(s[i], RccShape[i]) <==> '0' <= s[i] <= '9') && s[1..][i - 1] == s[i]
      {
        DigitClass(s[i]);
      }
    }
  }
}
