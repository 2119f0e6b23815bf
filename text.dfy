/**
 * The Python string operations the invoice code is built from: `sep.join`,
 * slicing into fixed-size chunks, `split`, `replace(c, "")`, `rjust`/`ljust`
 * and `str(n)`, each with the facts the rest of the model relies on.
 */
module Text {

  /** Python's `sep.join(parts)`. */
  function Join(parts: seq<string>, sep: string): string
    decreases |parts|
  {
    if |parts| == 0 then ""
    else if |parts| == 1 then parts[0]
    else parts[0] + sep + Join(parts[1..], sep)
  }

  /** The parts glued together with nothing between them (`"".join(parts)`). */
  function Concat(parts: seq<string>): string
    decreases |parts|
  {
    if |parts| == 0 then "" else parts[0] + Concat(parts[1..])
  }

  /** Joining two non-empty lists is joining each and putting one separator between. */
  lemma {:induction false} JoinAppend(a: seq<string>, b: seq<string>, sep: string)
    requires |a| > 0 && |b| > 0
    ensures Join(a + b, sep) == Join(a, sep) + sep + Join(b, sep)
    decreases |a|
  {
    if |a| == 1 {
      assert (a + b)[1..] == b;
    } else {
      assert (a + b)[1..] == a[1..] + b;
      JoinAppend(a[1..], b, sep);
    }
  }

  /** Appending one part to a non-empty list adds one separator and the part at the end. */
  lemma JoinSnoc(parts: seq<string>, x: string, sep: string)
    requires |parts| > 0
    ensures Join(parts + [x], sep) == Join(parts, sep) + sep + x
  {
    JoinAppend(parts, [x], sep);
  }

  /** With a one-character separator, the joined text is the parts plus one character per gap. */
  lemma {:induction false} JoinLength(parts: seq<string>, c: char)
    requires |parts| > 0
    ensures |Join(parts, [c])| == |Concat(parts)| + |parts| - 1
    decreases |parts|
  {
    if |parts| > 1 {
      JoinLength(parts[1..], c);
    }
  }

  /** Python's `[s[i : i + n] for i in range(0, len(s), n)]`. */
  function Chunks(s: string, n: nat): seq<string>
    requires n > 0
    decreases |s|
  {
    if |s| == 0 then []
    else if |s| <= n then [s]
    else [s[..n]] + Chunks(s[n..], n)
  }

  /**
   * The chunks restore `s` when glued back together, every chunk but the last
   * has exactly `n` characters, no chunk is empty, and their number is the
   * smallest `k` with `k * n >= |s|`.
   */
  lemma {:induction false} ChunksShape(s: string, n: nat)
    requires n > 0
    ensures Concat(Chunks(s, n)) == s
    ensures s == [] ==> Chunks(s, n) == []
    ensures s != [] ==> (|Chunks(s, n)| - 1) * n < |s| <= |Chunks(s, n)| * n
    ensures forall i :: 0 <= i < |Chunks(s, n)| - 1 ==> |Chunks(s, n)[i]| == n
    ensures forall i :: 0 <= i < |Chunks(s, n)| ==> 0 < |Chunks(s, n)[i]| <= n
    decreases |s|
  {
    if |s| > n {
      var c, t := Chunks(s, n), Chunks(s[n..], n);
      ChunksShape(s[n..], n);
      assert c == [s[..n]] + t;
      assert c[1..] == t;
      assert s == s[..n] + s[n..];
      assert |c| * n == |t| * n + n;
      assert (|c| - 1) * n == (|t| - 1) * n + n;
    }
  }

  /** A character absent from `s` is absent from each of its chunks. */
  lemma {:induction false} ChunksAvoid(s: string, n: nat, x: char)
    requires n > 0 && x !in s
    ensures forall i :: 0 <= i < |Chunks(s, n)| ==> x !in Chunks(s, n)[i]
    decreases |s|
  {
    if |s| > n {
      assert x !in s[n..] by {
        forall i | 0 <= i < |s[n..]| ensures s[n..][i] != x {
          assert s[n..][i] == s[n + i];
        }
      }
      ChunksAvoid(s[n..], n, x);
      assert x !in s[..n] by {
        forall i | 0 <= i < n ensures s[..n][i] != x {
          assert s[..n][i] == s[i];
        }
      }
      assert Chunks(s, n)[1..] == Chunks(s[n..], n);
    }
  }

  /** Python's `s.replace(c, "")` for a one-character `c`. */
  function RemoveAll(s: string, c: char): (r: string)
    ensures c !in r
    ensures |r| <= |s|
    decreases |s|
  {
    if |s| == 0 then ""
    else (if s[0] == c then "" else [s[0]]) + RemoveAll(s[1..], c)
  }

  /** Removing a character that does not occur changes nothing. */
  lemma {:induction false} RemoveAllAbsent(s: string, c: char)
    requires c !in s
    ensures RemoveAll(s, c) == s
    decreases |s|
  {
    if |s| > 0 {
      assert c !in s[1..];
      RemoveAllAbsent(s[1..], c);
      assert s == [s[0]] + s[1..];
    }
  }

  /** Removal distributes over concatenation. */
  lemma {:induction false} RemoveAllAppend(a: string, b: string, c: char)
    ensures RemoveAll(a + b, c) == RemoveAll(a, c) + RemoveAll(b, c)
    decreases |a|
  {
    if |a| == 0 {
      assert a + b == b;
    } else {
      var ab := a + b;
      assert ab[0] == a[0];
      assert ab[1..] == a[1..] + b;
      RemoveAllAppend(a[1..], b, c);
      var head := if a[0] == c then "" else [a[0]];
      calc {
        RemoveAll(ab, c);
        head + RemoveAll(a[1..] + b, c);
        head + (RemoveAll(a[1..], c) + RemoveAll(b, c));
        (head + RemoveAll(a[1..], c)) + RemoveAll(b, c);
      }
    }
  }

  /** Removing removes exactly the occurrences: the removed character is the only one lost. */
  lemma {:induction false} RemoveAllKeeps(s: string, c: char, x: char)
    requires x != c
    ensures x in RemoveAll(s, c) <==> x in s
    decreases |s|
  {
    if |s| > 0 {
      RemoveAllKeeps(s[1..], c, x);
      assert s == [s[0]] + s[1..];
    }
  }

  /** Removing the separator from a join of separator-free parts glues the parts together. */
  lemma {:induction false} RemoveAllJoin(parts: seq<string>, c: char)
    requires forall i :: 0 <= i < |parts| ==> c !in parts[i]
    ensures RemoveAll(Join(parts, [c]), c) == Concat(parts)
    decreases |parts|
  {
    if |parts| == 1 {
      RemoveAllAbsent(parts[0], c);
      assert Concat(parts[1..]) == "";
    } else if |parts| > 1 {
      RemoveAllJoin(parts[1..], c);
      RemoveAllAppend(parts[0] + [c], Join(parts[1..], [c]), c);
      RemoveAllAppend(parts[0], [c], c);
      RemoveAllAbsent(parts[0], c);
      assert parts[0] + [c] + Join(parts[1..], [c]) == Join(parts, [c]);
    }
  }

  /** `pre` is a prefix of `s`. */
  predicate IsPrefix(pre: string, s: string)
  {
    |pre| <= |s| && s[..|pre|] == pre
  }

  /** Python's `sub in s` on two strings. */
  predicate Contains(s: string, sub: string)
    decreases |s|
  {
    IsPrefix(sub, s) || (|s| > 0 && Contains(s[1..], sub))
  }

  /** A one-character text occurs in `s` exactly when the character does. */
  lemma {:induction false} ContainsChar(s: string, c: char)
    ensures Contains(s, [c]) <==> c in s
    decreases |s|
  {
    if |s| > 0 {
      ContainsChar(s[1..], c);
      assert s == [s[0]] + s[1..];
    }
  }

  /** Python's `s.split(sep)`: cut at each leftmost, non-overlapping occurrence of `sep`. */
  function Split(s: string, sep: string): (r: seq<string>)
    requires |sep| > 0
    ensures |r| > 0
    decreases |s|
  {
    if IsPrefix(sep, s) then [""] + Split(s[|sep|..], sep)
    else if |s| == 0 then [""]
    else
      var t := Split(s[1..], sep);
      [[s[0]] + t[0]] + t[1..]
  }

  /** No proper non-empty prefix of `sep` is also a suffix of it, so occurrences never overlap. */
  predicate BorderFree(sep: string)
  {
    forall k :: 0 < k < |sep| ==> sep[k..] != sep[..|sep| - k]
  }

  /** A text without the separator splits into itself. */
  lemma {:induction false} SplitWhole(p: string, sep: string)
    requires |sep| > 0 && !Contains(p, sep)
    ensures Split(p, sep) == [p]
    decreases |p|
  {
    if |p| > 0 {
      SplitWhole(p[1..], sep);
      assert [p[0]] + p[1..] == p;
    }
  }

  /** A separator-free part followed by the separator splits off as one field. */
  lemma {:induction false} SplitAfterPart(p: string, rest: string, sep: string)
    requires |sep| > 0 && BorderFree(sep) && !Contains(p, sep)
    ensures Split(p + sep + rest, sep) == [p] + Split(rest, sep)
    decreases |p|
  {
    var s := p + sep + rest;
    if |p| == 0 {
      assert s == sep + rest;
      assert IsPrefix(sep, s);
      assert s[|sep|..] == rest;
    } else {
      if |p| >= |sep| {
        assert s[..|sep|] == p[..|sep|];
      } else {
        var k := |p|;
        assert s[..|sep|] == p + sep[..|sep| - k];
        assert s[..|sep|][k..] == sep[..|sep| - k];
        assert sep[k..] != sep[..|sep| - k];
      }
      assert !IsPrefix(sep, s);
      assert s[1..] == p[1..] + sep + rest;
      SplitAfterPart(p[1..], rest, sep);
      assert [p[0]] + p[1..] == p;
    }
  }

  /** Splitting undoes joining when no part holds the separator. */
  lemma {:induction false} SplitJoin(parts: seq<string>, sep: string)
    requires |sep| > 0 && BorderFree(sep) && |parts| > 0
    requires forall i :: 0 <= i < |parts| ==> !Contains(parts[i], sep)
    ensures Split(Join(parts, sep), sep) == parts
    decreases |parts|
  {
    if |parts| == 1 {
      SplitWhole(parts[0], sep);
    } else {
      SplitJoin(parts[1..], sep);
      SplitAfterPart(parts[0], Join(parts[1..], sep), sep);
      assert [parts[0]] + parts[1..] == parts;
    }
  }

  /** `n` copies of `c`. */
  function Repeat(c: char, n: nat): (r: string)
    ensures |r| == n
    ensures forall i :: 0 <= i < n ==> r[i] == c
  {
    seq(n, _ => c)
  }

  /** Python's `s.rjust(width, c)`. */
  function LeftPad(s: string, width: nat, c: char): (r: string)
    ensures |r| == if |s| >= width then |s| else width
    ensures |s| <= |r| && r[|r| - |s|..] == s
    ensures forall i :: 0 <= i < |r| - |s| ==> r[i] == c
  {
    if |s| >= width then s else Repeat(c, width - |s|) + s
  }

  /** Python's `s.ljust(width, c)`. */
  function RightPad(s: string, width: nat, c: char): (r: string)
    ensures |r| == if |s| >= width then |s| else width
    ensures |s| <= |r| && r[..|s|] == s
    ensures forall i :: |s| <= i < |r| ==> r[i] == c
  {
    if |s| >= width then s else s + Repeat(c, width - |s|)
  }

  /** The decimal digit character for `d`. */
  function DigitChar(d: nat): (r: char)
    requires d < 10
    ensures '0' <= r <= '9'
  {
    (('0' as int) + d) as char
  }

  /** Python's `str(n)` for a natural number. */
  function NatToString(n: nat): (r: string)
    ensures |r| > 0
    ensures forall i :: 0 <= i < |r| ==> '0' <= r[i] <= '9'
  {
    if n < 10 then [DigitChar(n)] else NatToString(n / 10) + [DigitChar(n % 10)]
  }

  /** The text before the first `c` and the text after it (Python's `s.partition(c)` without the middle). */
  function Partition(s: string, c: char): (string, string)
    decreases |s|
  {
    if |s| == 0 then ("", "")
    else if s[0] == c then ("", s[1..])
    else
      var (before, after) := Partition(s[1..], c);
      ([s[0]] + before, after)
  }

  /** Partitioning `a + [c] + b` at `c` gives back `a` and `b` when `a` has no `c`. */
  lemma {:induction false} PartitionJoin(a: string, b: string, c: char)
    requires c !in a
    ensures Partition(a + [c] + b, c) == (a, b)
    decreases |a|
  {
    if |a| > 0 {
      assert (a + [c] + b)[1..] == a[1..] + [c] + b;
      assert c !in a[1..];
      PartitionJoin(a[1..], b, c);
      assert [a[0]] + a[1..] == a;
    } else {
      assert (a + [c] + b)[1..] == b;
    }
  }
}
