/** String helpers that stand for the JavaScript string operations the source uses:
    `toLowerCase`, `includes`, `startsWith`, decimal `toString()` and `Number(...)`. */
module Text {
  import opened Wrappers

  predicate IsUpper(c: char) { 'A' <= c <= 'Z' }

  predicate IsDigit(c: char) { '0' <= c <= '9' }

  predicate IsHexDigit(c: char) { IsDigit(c) || 'a' <= c <= 'f' || 'A' <= c <= 'F' }

  function LowerChar(c: char): char
  {
    if IsUpper(c) then (c as int + 32) as char else c
  }

  /** `s.toLowerCase()` on the ASCII letters (see README for non-ASCII text). */
  function Lower(s: string): string
  {
    seq(|s|, i requires 0 <= i < |s| => LowerChar(s[i]))
  }

  lemma LowerHasNoUpper(s: string)
    ensures forall c :: c in Lower(s) ==> !IsUpper(c)
  {
  }

  /** `s.startsWith(p)` */
  predicate StartsWith(s: string, p: string)
  {
    |p| <= |s| && s[..|p|] == p
  }

  /** `s.includes(p)`: `p` occurs somewhere in `s` as a contiguous substring. */
  predicate Contains(s: string, p: string)
    decreases |s|
  {
    StartsWith(s, p) || (|s| > 0 && Contains(s[1..], p))
  }

  /** Every character of an occurring pattern is a character of the text. */
  lemma {:induction false} ContainedCharsOccur(s: string, p: string)
    requires Contains(s, p)
    ensures forall c :: c in p ==> c in s
  {
    if StartsWith(s, p) {
      forall c | c in p ensures c in s {
        var j :| 0 <= j < |p| && p[j] == c;
        assert s[..|p|][j] == s[j];
      }
    } else {
      ContainedCharsOccur(s[1..], p);
      forall c | c in p ensures c in s {
        assert c in s[1..];
      }
    }
  }

  /** A pattern holding a character the text lacks cannot occur in it. */
  lemma MissingCharRulesOut(s: string, p: string, c: char)
    requires c in p && c !in s
    ensures !Contains(s, p)
  {
    if Contains(s, p) {
      ContainedCharsOccur(s, p);
    }
  }

  /** A pattern with an upper-case letter never occurs in lower-cased text. */
  lemma UpperPatternNeverInLowered(s: string, p: string, j: nat)
    requires j < |p| && IsUpper(p[j])
    ensures !Contains(Lower(s), p)
  {
    LowerHasNoUpper(s);
    MissingCharRulesOut(Lower(s), p, p[j]);
  }

  function Digit(d: nat): (c: char)
    requires d < 10
    ensures IsDigit(c) && c as int - '0' as int == d
  {
    ('0' as int + d) as char
  }

  function DigitValue(c: char): nat
  {
    if IsDigit(c) then c as int - '0' as int else 0
  }

  /** `n.toString()` for a non-negative integer (a `BigNumber` or a JavaScript number). */
  function NatToString(n: nat): (r: string)
    ensures |r| >= 1
    ensures forall i :: 0 <= i < |r| ==> IsDigit(r[i])
    ensures |r| > 1 ==> r[0] != '0'
    decreases n
  {
    if n < 10 then [Digit(n)] else NatToString(n / 10) + [Digit(n % 10)]
  }

  /** `${i}` for an integer. */
  function IntToString(i: int): (r: string)
    ensures |r| >= 1
    ensures i < 0 <==> r[0] == '-'
    ensures forall k :: 0 <= k < |r| ==> IsDigit(r[k]) || r[k] == '-'
  {
    if i < 0 then "-" + NatToString(-i) else NatToString(i)
  }

  /** The value a string of decimal digits denotes. */
  function DecimalValue(s: string): nat
    decreases |s|
  {
    if s == [] then 0 else DecimalValue(s[..|s| - 1]) * 10 + DigitValue(s[|s| - 1])
  }

  /** `Number(s)` on a string of decimal digits; anything else is treated as not a block number. */
  function ParseDecimal(s: string): (r: Option<nat>)
    ensures r.Some? <==> s != [] && forall i :: 0 <= i < |s| ==> IsDigit(s[i])
  {
    if s != [] && forall i :: 0 <= i < |s| ==> IsDigit(s[i]) then Some(DecimalValue(s)) else None
  }

  /** The decimal text of a number denotes that number. */
  lemma {:induction false} DecimalRoundTrip(n: nat)
    ensures DecimalValue(NatToString(n)) == n
  {
    if n >= 10 {
      var s := NatToString(n);
      assert s[..|s| - 1] == NatToString(n / 10);
      DecimalRoundTrip(n / 10);
    }
  }

  /** Reading back the decimal text of a block number gives the number. */
  lemma ParseNatToString(n: nat)
    ensures ParseDecimal(NatToString(n)) == Some(n)
  {
    DecimalRoundTrip(n);
  }

  /** Distinct numbers have distinct decimal texts. */
  lemma NatToStringInjective(a: nat, b: nat)
    requires NatToString(a) == NatToString(b)
    ensures a == b
  {
    DecimalRoundTrip(a);
    DecimalRoundTrip(b);
  }

  /** Distinct integers have distinct decimal texts. */
  lemma {:induction false} IntToStringInjective(a: int, b: int)
    requires IntToString(a) == IntToString(b)
    ensures a == b
  {
    if a < 0 {
      assert IntToString(a)[1..] == NatToString(-a);
      assert IntToString(b)[1..] == NatToString(-b);
      NatToStringInjective(-a, -b);
    } else {
      NatToStringInjective(a, b);
    }
  }

  /** A text with the pattern somewhere in it contains it. */
  lemma {:induction false} ContainsInfix(a: string, p: string, b: string)
    ensures Contains(a + p + b, p)
    decreases |a|
  {
    if a == [] {
      assert a + p + b == p + b;
      assert (p + b)[..|p|] == p;
    } else {
      assert (a + p + b)[1..] == a[1..] + p + b;
      ContainsInfix(a[1..], p, b);
    }
  }

  /** Texts that agree on a common prefix and suffix agree in between. */
  lemma PrefixSuffixCancel(p: string, x: string, y: string, q: string)
    requires p + x + q == p + y + q
    ensures x == y
  {
    assert |x| == |y|;
    assert (p + x + q)[|p|..|p| + |x|] == x;
    assert (p + y + q)[|p|..|p| + |y|] == y;
  }

  /** Where the last character of the separator sits in `a + sep + b`. */
  lemma LastSeparatorChar(a: string, sep: string, b: string)
    ensures |sep| > 0 ==> (a + sep + b)[|a| + |sep| - 1] == sep[|sep| - 1]
  {
  }

  /** In `a + sep + b`, a tail free of the last character of `sep` cannot be shorter than
      another such tail of the same text. */
  lemma SeparatedTailNotShorter(a1: string, b1: string, a2: string, b2: string, sep: string)
    requires |sep| > 0 && sep[|sep| - 1] !in b2
    requires a1 + sep + b1 == a2 + sep + b2
    ensures |b1| >= |b2|
  {
    if |b1| < |b2| {
      LastSeparatorChar(a1, sep, b1);
      assert false;
    }
  }

  /** `a + sep + b` splits one way only when the last character of `sep` occurs in neither
      tail: the tail is what follows the last occurrence of that character. */
  lemma SeparatorSplitsUniquely(a1: string, b1: string, a2: string, b2: string, sep: string)
    requires |sep| > 0 && sep[|sep| - 1] !in b1 && sep[|sep| - 1] !in b2
    requires a1 + sep + b1 == a2 + sep + b2
    ensures a1 == a2 && b1 == b2
  {
    SeparatedTailNotShorter(a1, b1, a2, b2, sep);
    SeparatedTailNotShorter(a2, b2, a1, b1, sep);
    var w1 := a1 + sep + b1;
    var w2 := a2 + sep + b2;
    assert b1 == w1[|w1| - |b1|..] == w2[|w2| - |b2|..] == b2;
    assert a1 == w1[..|a1|] == w2[..|a2|] == a2;
  }

  /** A pattern occurring in the middle part occurs in the whole. */
  lemma {:induction false} ContainsWithin(a: string, s: string, b: string, p: string)
    requires Contains(s, p)
    ensures Contains(a + s + b, p)
    decreases |a|, |s|
  {
    if a != [] {
      assert (a + s + b)[1..] == a[1..] + s + b;
      ContainsWithin(a[1..], s, b, p);
    } else if StartsWith(s, p) {
      assert (a + s + b)[..|p|] == s[..|p|];
    } else {
      assert (a + s + b)[1..] == a + s[1..] + b;
      ContainsWithin(a, s[1..], b, p);
    }
  }

  /** Where a contained pattern starts. */
  lemma {:induction false} ContainsAt(s: string, p: string) returns (k: nat)
    requires Contains(s, p)
    ensures k + |p| <= |s| && s[k..k + |p|] == p
    decreases |s|
  {
    if StartsWith(s, p) {
      k := 0;
    } else {
      var j := ContainsAt(s[1..], p);
      k := j + 1;
      assert s[k..k + |p|] == s[1..][j..j + |p|];
    }
  }

  /** An occurrence in `a + b + c` whose first character `a` lacks starts past `a`. */
  lemma OccurrenceAfterPrefix(a: string, b: string, c: string, p: string, k: nat)
    requires |p| > 0 && p[0] !in a
    requires k + |p| <= |a + b + c| && (a + b + c)[k..k + |p|] == p
    ensures |a| <= k
  {
    assert (a + b + c)[k] == p[0];
  }

  /** An occurrence in `a + b + c` whose last character `c` lacks ends before `c`. */
  lemma OccurrenceBeforeSuffix(a: string, b: string, c: string, p: string, k: nat)
    requires |p| > 0 && p[|p| - 1] !in c
    requires k + |p| <= |a + b + c| && (a + b + c)[k..k + |p|] == p
    ensures k + |p| <= |a| + |b|
  {
    assert (a + b + c)[k + |p| - 1] == p[|p| - 1];
  }

  /** An occurrence in `a + b + c` lying within `b` is an occurrence in `b`. */
  lemma OccurrenceInMiddle(a: string, b: string, c: string, p: string, k: nat)
    requires |a| <= k && k + |p| <= |a| + |b| && (a + b + c)[k..k + |p|] == p
    ensures Contains(b, p)
  {
    var i := k - |a|;
    assert b[i..i + |p|] == (a + b + c)[k..k + |p|];
    assert b == b[..i] + p + b[i + |p|..];
    ContainsInfix(b[..i], p, b[i + |p|..]);
  }

  /** A pattern whose first character the prefix lacks and whose last character the suffix
      lacks can only occur within the middle part. */
  lemma OccurrenceInside(a: string, b: string, c: string, p: string)
    requires |p| > 0 && p[0] !in a && p[|p| - 1] !in c
    requires Contains(a + b + c, p)
    ensures Contains(b, p)
  {
    var k := ContainsAt(a + b + c, p);
    OccurrenceAfterPrefix(a, b, c, p, k);
    OccurrenceBeforeSuffix(a, b, c, p, k);
    OccurrenceInMiddle(a, b, c, p, k);
  }
}
