/**
 * Java `int` arithmetic and decimal rendering, as used when a duplicate node
 * name is disambiguated with `name + idCount++`.
 */
module Decimal {

  const MinInt32: int := -0x8000_0000
  const MaxInt32: int := 0x7fff_ffff

  predicate IsInt32(x: int) { MinInt32 <= x <= MaxInt32 }

  /** Java's post-increment on an `int`: wraps from the largest value to the smallest. */
  function Int32Succ(x: int): (r: int)
    requires IsInt32(x)
    ensures IsInt32(r)
    ensures x < MaxInt32 ==> r == x + 1
    ensures x == MaxInt32 ==> r == MinInt32
  {
    if x == MaxInt32 then MinInt32 else x + 1
  }

  function DigitChar(d: nat): (c: char)
    requires d < 10
  {
    "0123456789"[d]
  }

  predicate IsDigit(c: char) { '0' <= c <= '9' }

  function DigitValue(c: char): nat
    requires IsDigit(c)
  {
    (c - '0') as nat
  }

  predicate AllDigits(s: string)
  {
    forall i :: 0 <= i < |s| ==> IsDigit(s[i])
  }

  /** The shape of a Java decimal `int` literal: digits, optionally after one minus sign. */
  predicate IsIntLiteral(s: string)
  {
    (|s| > 0 && AllDigits(s)) || (|s| > 1 && s[0] == '-' && AllDigits(s[1..]))
  }

  /** Decimal digits of `n`, most significant first, without leading zeros. */
  function DecimalText(n: nat): (s: string)
    ensures |s| > 0 && AllDigits(s)
    decreases n
  {
    if n < 10 then [DigitChar(n)] else DecimalText(n / 10) + [DigitChar(n % 10)]
  }

  /** Reads a string of decimal digits back into the number it denotes. */
  function ParseDecimal(s: string): nat
    requires AllDigits(s)
    decreases |s|
  {
    if s == [] then 0 else ParseDecimal(s[..|s| - 1]) * 10 + DigitValue(s[|s| - 1])
  }

  /** What Java's `String + int` appends: an optional minus sign, then the digits. */
  function IntText(x: int): (s: string)
    ensures IsIntLiteral(s)
    ensures s[0] == '-' <==> x < 0
  {
    if x < 0 then
      var d := DecimalText(-x);
      assert ("-" + d)[1..] == d;
      "-" + d
    else DecimalText(x)
  }

  /** Reads a decimal `int` literal back, as `Integer.parseInt` does for in-range values. */
  function ParseInt(s: string): int
    requires IsIntLiteral(s)
  {
    if s[0] == '-' then -(ParseDecimal(s[1..]) as int) else ParseDecimal(s)
  }

  lemma {:induction false} ParseDecimalText(n: nat)
    ensures ParseDecimal(DecimalText(n)) == n
    decreases n
  {
    var s := DecimalText(n);
    if n >= 10 {
      assert s[..|s| - 1] == DecimalText(n / 10);
      ParseDecimalText(n / 10);
      assert DigitValue(s[|s| - 1]) == n % 10;
    } else {
      assert DigitValue(s[0]) == n;
    }
  }

  /** Parsing the text of any integer gives the integer back. */
  lemma ParseIntText(x: int)
    ensures ParseInt(IntText(x)) == x
  {
    var s := IntText(x);
    if x < 0 {
      var d := DecimalText(-x);
      assert s[1..] == d by {
        assert s == "-" + d;
      }
      ParseDecimalText(-x);
    } else {
      assert s == DecimalText(x);
      ParseDecimalText(x);
    }
  }

  /** Distinct counter values give distinct suffixes. */
  lemma IntTextInjective(x: int, y: int)
    requires x != y
    ensures IntText(x) != IntText(y)
  {
    ParseIntText(x);
    ParseIntText(y);
  }

  /** A common prefix can be cancelled. */
  lemma CancelPrefix(p: string, s: string, t: string)
    requires p + s == p + t
    ensures s == t
  {
    assert s == (p + s)[|p|..];
    assert t == (p + t)[|p|..];
  }

  /** A suffixed id never equals the bare name it was derived from. */
  lemma SuffixedIdsDistinct(name: string, x: int, y: int)
    requires x != y
    ensures name + IntText(x) != name + IntText(y)
    ensures name + IntText(x) != name
  {
    IntTextInjective(x, y);
    if name + IntText(x) == name + IntText(y) {
      CancelPrefix(name, IntText(x), IntText(y));
    }
    assert |name + IntText(x)| > |name|;
  }
}
