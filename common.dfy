/** Small shared vocabulary: an Option type and the decimal rendering of
    integers that both the relay server (millisecond timestamps) and the
    overlay label (percentages) emit. */
module Common {

  datatype Option<T> = None | Some(value: T)

  predicate IsDigit(c: char) { '0' <= c <= '9' }

  function DigitValue(c: char): (d: nat)
    requires IsDigit(c)
    ensures d < 10
  {
    c as int - '0' as int
  }

  function DigitChar(d: nat): (c: char)
    requires d < 10
    ensures IsDigit(c) && DigitValue(c) == d
  {
    ['0', '1', '2', '3', '4', '5', '6', '7', '8', '9'][d]
  }

  /** Decimal digits of n, most significant first, without leading zeros
      (the rendering of Python's str(int) and JavaScript's String(n)). */
  function NatToString(n: nat): (s: string)
    ensures |s| > 0
    ensures forall i :: 0 <= i < |s| ==> IsDigit(s[i])
    ensures |s| > 1 ==> s[0] != '0'
    decreases n
  {
    if n < 10 then [DigitChar(n)] else NatToString(n / 10) + [DigitChar(n % 10)]
  }

  /** A leading '-' for negative values, then the digits of the magnitude. */
  function IntToString(i: int): (s: string)
    ensures |s| > 0
    ensures i < 0 <==> s[0] == '-'
    ensures forall k :: (if s[0] == '-' then 1 else 0) <= k < |s| ==> IsDigit(s[k])
  {
    if i < 0 then "-" + NatToString(-i) else NatToString(i)
  }

  /** Reads a string of decimal digits back as a number. */
  function ParseDigits(s: string): nat
    requires forall i :: 0 <= i < |s| ==> IsDigit(s[i])
  {
    if s == [] then 0 else 10 * ParseDigits(s[..|s| - 1]) + DigitValue(s[|s| - 1])
  }

  /** Reads an optionally signed decimal string back as an integer. */
  function ParseInt(s: string): int
    requires |s| > 0
    requires forall i :: (if s[0] == '-' then 1 else 0) <= i < |s| ==> IsDigit(s[i])
  {
    if s[0] == '-' then -(ParseDigits(s[1..]) as int) else ParseDigits(s)
  }

  /** The rendering loses nothing: parsing the digits gives back the number. */
  lemma {:induction false} NatToStringRoundTrip(n: nat)
    ensures ParseDigits(NatToString(n)) == n
    decreases n
  {
    if n >= 10 {
      var prefix := NatToString(n / 10);
      var s := prefix + [DigitChar(n % 10)];
      assert s[..|s| - 1] == prefix;
      NatToStringRoundTrip(n / 10);
    }
  }

  lemma IntToStringRoundTrip(i: int)
    ensures ParseInt(IntToString(i)) == i
  {
    if i < 0 {
      NegativeRoundTrip(i);
    } else {
      var s := NatToString(i);
      assert IntToString(i) == s && IsDigit(s[0]);
      NatToStringRoundTrip(i);
    }
  }

  lemma NegativeRoundTrip(i: int)
    requires i < 0
    ensures ParseInt(IntToString(i)) == i
  {
    var digits := NatToString(-i);
    var s := "-" + digits;
    assert IntToString(i) == s;
    assert s[1..] == digits;
    NatToStringRoundTrip(-i);
  }
}
