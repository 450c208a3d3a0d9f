/** Strings as the evaluators use them: decimal rendering of whole numbers
    (JavaScript's `Number.prototype.toString` on an integer) and plain,
    case-sensitive substring containment (`String.prototype.includes`). */
module Strings {

  predicate IsDigit(c: char) {
    '0' <= c <= '9'
  }

  function DigitChar(d: nat): (c: char)
    requires d < 10
    ensures IsDigit(c)
  {
    (('0' as int) + d) as char
  }

  function DigitValue(c: char): (d: int) {
    (c as int) - ('0' as int)
  }

  /** Decimal digits of `n`, most significant first, without leading zeros. */
  function NatToString(n: nat): (s: string)
    ensures |s| > 0
    ensures forall k :: 0 <= k < |s| ==> IsDigit(s[k])
    ensures n > 0 ==> s[0] != '0'
    ensures |s| > 1 ==> s[0] != '0'
    decreases n
  {
    if n < 10 then [DigitChar(n)] else NatToString(n / 10) + [DigitChar(n % 10)]
  }

  /** Decimal rendering of an integer, with a leading '-' when it is negative. */
  function IntToString(i: int): (s: string) {
    if i < 0 then "-" + NatToString(-i) else NatToString(i)
  }

  /** Value of a string of decimal digits (the empty string reads as 0). */
  function ParseNat(s: string): (n: int)
    decreases |s|
  {
    if |s| == 0 then 0 else ParseNat(s[..|s| - 1]) * 10 + DigitValue(s[|s| - 1])
  }

  /** Value of a decimal rendering, with an optional leading '-'. */
  function ParseInt(s: string): (i: int) {
    if |s| > 0 && s[0] == '-' then -ParseNat(s[1..]) else ParseNat(s)
  }

  lemma {:induction false} ParseNatOfNatToString(n: nat)
    ensures ParseNat(NatToString(n)) == n
    decreases n
  {
    if n >= 10 {
      var prefix := NatToString(n / 10);
      var s := prefix + [DigitChar(n % 10)];
      assert s[..|s| - 1] == prefix;
      ParseNatOfNatToString(n / 10);
    }
  }

  /** Reading back a rendered integer gives the integer: the rendering loses nothing. */
  lemma IntToStringRoundTrip(i: int)
    ensures ParseInt(IntToString(i)) == i
  {
    if i < 0 {
      var digits := NatToString(-i);
      assert ("-" + digits)[1..] == digits;
      ParseNatOfNatToString(-i);
    } else {
      ParseNatOfNatToString(i);
      assert !IsDigit('-');
    }
  }

  /** Distinct integers have distinct renderings. */
  lemma IntToStringInjective(a: int, b: int)
    requires IntToString(a) == IntToString(b)
    ensures a == b
  {
    IntToStringRoundTrip(a);
    IntToStringRoundTrip(b);
  }

  /** `sub` occurs in `s` starting at index `i`. */
  ghost predicate OccursAt(s: string, sub: string, i: int) {
    0 <= i && i + |sub| <= |s| && s[i..i + |sub|] == sub
  }

  /** `sub` occurs somewhere in `s`, character for character. */
  ghost predicate Contains(s: string, sub: string) {
    exists i :: OccursAt(s, sub, i)
  }

  /** Executable substring test: try `sub` as a prefix at every position in turn. */
  function Includes(s: string, sub: string): (b: bool)
    decreases |s|
  {
    if |s| < |sub| then false
    else if s[..|sub|] == sub then true
    else Includes(s[1..], sub)
  }

  lemma {:induction false} IncludesIsContains(s: string, sub: string)
    ensures Includes(s, sub) <==> Contains(s, sub)
    decreases |s|
  {
    if |s| < |sub| {
    } else if s[..|sub|] == sub {
      assert OccursAt(s, sub, 0);
    } else {
      var tail := s[1..];
      IncludesIsContains(tail, sub);
      forall i | OccursAt(tail, sub, i) ensures OccursAt(s, sub, i + 1) {
        assert tail[i..i + |sub|] == s[i + 1..i + 1 + |sub|];
      }
      forall i | OccursAt(s, sub, i) ensures OccursAt(tail, sub, i - 1) {
        assert i != 0;
        assert tail[i - 1..i - 1 + |sub|] == s[i..i + |sub|];
      }
    }
  }

  /** A string lacking one of the characters of `sub` does not contain `sub`. */
  lemma MissingCharacterExcludes(s: string, sub: string, k: int)
    requires 0 <= k < |sub| && sub[k] !in s
    ensures !Contains(s, sub)
  {
  }
}
