/** String operations the booking search relies on: ASCII case folding
    (the part of `toLowerCase` this model keeps), substring search
    (`String.prototype.includes`) and the decimal text of an integer
    (`Number.prototype.toString` on integral values). */
module Text {

  /** Folds one ASCII upper-case letter to lower case; every other character is kept. */
  function LowerChar(c: char): (r: char)
    ensures !('A' <= r <= 'Z')
    ensures !('A' <= c <= 'Z') ==> r == c
    ensures 'A' <= c <= 'Z' ==> 'a' <= r <= 'z' && r as int - c as int == 'a' as int - 'A' as int
  {
    if 'A' <= c <= 'Z' then (c as int - 'A' as int + 'a' as int) as char else c
  }

  /** `s.toLowerCase()`, restricted to ASCII letters. */
  function Lower(s: string): (r: string)
    ensures |r| == |s|
    ensures forall i :: 0 <= i < |r| ==> !('A' <= r[i] <= 'Z')
    ensures forall i :: 0 <= i < |s| && !('A' <= s[i] <= 'Z') ==> r[i] == s[i]
    ensures forall i :: 0 <= i < |s| && 'A' <= s[i] <= 'Z' ==> r[i] as int == s[i] as int + ('a' as int - 'A' as int)
  {
    seq(|s|, i requires 0 <= i < |s| => LowerChar(s[i]))
  }

  /** Folding twice is folding once. */
  lemma LowerIdempotent(s: string)
    ensures Lower(Lower(s)) == Lower(s)
  {
  }

  predicate IsPrefix(p: string, s: string) {
    |p| <= |s| && s[..|p|] == p
  }

  /** `s.includes(p)`: p occurs in s at some position (the empty string occurs everywhere). */
  function Contains(s: string, p: string): (r: bool)
    ensures p == [] ==> r
    ensures r ==> |p| <= |s|
    decreases |s|
  {
    IsPrefix(p, s) || (s != [] && Contains(s[1..], p))
  }

  /** Contains agrees with the positional definition of an occurrence, in both directions. */
  lemma {:induction false} ContainsIffOccurrence(s: string, p: string)
    ensures Contains(s, p) <==> exists i :: 0 <= i <= |s| && IsPrefix(p, s[i..])
    decreases |s|
  {
    if IsPrefix(p, s) {
      assert s[0..] == s;
    } else if s == [] {
      assert forall i :: 0 <= i <= |s| ==> s[i..] == s;
    } else {
      ContainsIffOccurrence(s[1..], p);
      forall i | 1 <= i <= |s| ensures s[i..] == s[1..][i - 1..] { }
      assert s[0..] == s;
    }
  }

  function DigitChar(d: nat): (c: char)
    requires d < 10
    ensures '0' <= c <= '9'
  {
    (d + '0' as int) as char
  }

  /** Decimal text of a natural number, most significant digit first, with no leading zero. */
  function NatToDecimal(n: nat): (r: string)
    ensures |r| >= 1
    ensures forall i :: 0 <= i < |r| ==> '0' <= r[i] <= '9'
    ensures |r| > 1 ==> r[0] != '0'
    decreases n
  {
    if n < 10 then [DigitChar(n)] else NatToDecimal(n / 10) + [DigitChar(n % 10)]
  }

  /** `n.toString()` for an integral Number: a minus sign for negative values, then the digits. */
  function IntToDecimal(n: int): (r: string)
    ensures |r| >= 1
    ensures r[0] == '-' <==> n < 0
  {
    if n < 0 then "-" + NatToDecimal(-n) else NatToDecimal(n)
  }

  /** The value of a string of decimal digits; the reading direction of NatToDecimal. */
  function DecimalValue(s: string): int
    decreases |s|
  {
    if s == [] then 0 else DecimalValue(s[..|s| - 1]) * 10 + (s[|s| - 1] as int - '0' as int)
  }

  /** The value of an optionally signed decimal string. */
  function SignedDecimalValue(s: string): int {
    if s != [] && s[0] == '-' then -DecimalValue(s[1..]) else DecimalValue(s)
  }

  lemma {:induction false} NatDecimalRoundTrip(n: nat)
    ensures DecimalValue(NatToDecimal(n)) == n
    decreases n
  {
    if n >= 10 {
      NatDecimalRoundTrip(n / 10);
      var s := NatToDecimal(n);
      assert s[..|s| - 1] == NatToDecimal(n / 10);
    }
  }

  /** The decimal text of an integer reads back as that integer, so distinct amounts have distinct text. */
  lemma IntDecimalRoundTrip(n: int)
    ensures SignedDecimalValue(IntToDecimal(n)) == n
  {
    if n < 0 {
      NatDecimalRoundTrip(-n);
      assert IntToDecimal(n)[1..] == NatToDecimal(-n);
    } else {
      NatDecimalRoundTrip(n);
    }
  }
}
