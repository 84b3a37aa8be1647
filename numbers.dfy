/** Decimal text of integers: Integer.toString / String.valueOf,
    String.format("%04d", n) and Long.parseLong, with the round trips that
    make the formatted codes decodable. Digits are the ASCII ones. */
module Numbers {
  import opened Common

  const MinLong: int := -0x8000_0000_0000_0000
  const MaxLong: int := 0x7fff_ffff_ffff_ffff

  predicate IsDigit(c: char) {
    '0' <= c <= '9'
  }

  predicate AllDigits(s: string) {
    forall k :: 0 <= k < |s| ==> IsDigit(s[k])
  }

  function DigitChar(d: nat): (c: char)
    requires d < 10
    ensures IsDigit(c) && c as int - '0' as int == d
  {
    ('0' as int + d) as char
  }

  function DigitOf(c: char): nat
    requires IsDigit(c)
  {
    c as int - '0' as int
  }

  function Pow10(k: nat): (r: nat)
    ensures r >= 1
  {
    if k == 0 then 1 else 10 * Pow10(k - 1)
  }

  /** The decimal digits of `n`, without leading zeros. */
  function Digits(n: nat): (r: string)
    ensures |r| >= 1 && AllDigits(r)
    ensures |r| > 1 ==> r[0] != '0'
    decreases n
  {
    if n < 10 then [DigitChar(n)] else Digits(n / 10) + [DigitChar(n % 10)]
  }

  /** The number a string of decimal digits denotes (leading zeros allowed). */
  function DigitsValue(s: string): nat
    requires AllDigits(s)
  {
    if s == [] then 0 else DigitsValue(s[..|s| - 1]) * 10 + DigitOf(s[|s| - 1])
  }

  lemma {:induction false} DigitsRoundTrip(n: nat)
    ensures DigitsValue(Digits(n)) == n
    decreases n
  {
    if n >= 10 {
      var d := Digits(n / 10);
      DigitsRoundTrip(n / 10);
      assert (d + [DigitChar(n % 10)])[..|d|] == d;
    }
  }

  /** Numbers below 10^k have at most k digits. */
  lemma {:induction false} DigitsLength(n: nat, k: nat)
    requires 1 <= k && n < Pow10(k)
    ensures |Digits(n)| <= k
    decreases k
  {
    if n >= 10 {
      DigitsLength(n / 10, k - 1);
    }
  }

  lemma DigitsAtMostFour(n: nat)
    ensures n <= 9999 ==> |Digits(n)| <= 4
  {
    if n <= 9999 {
      DigitsLength(n, 4);
    }
  }

  function Zeros(k: nat): (r: string)
    ensures |r| == k && AllDigits(r)
    ensures forall i :: 0 <= i < k ==> r[i] == '0'
  {
    seq(k, _ => '0')
  }

  /** Leading zeros do not change the value of a digit string. */
  lemma {:induction false} LeadingZerosValue(k: nat, s: string)
    requires AllDigits(s)
    ensures AllDigits(Zeros(k) + s) && DigitsValue(Zeros(k) + s) == DigitsValue(s)
    decreases |s|, k
  {
    var z := Zeros(k) + s;
    if s == [] {
      assert z == Zeros(k);
      if k > 0 {
        assert z[..k - 1] == Zeros(k - 1) + [];
        LeadingZerosValue(k - 1, []);
      }
    } else {
      var init := s[..|s| - 1];
      assert z[..|z| - 1] == Zeros(k) + init;
      assert z[|z| - 1] == s[|s| - 1];
      LeadingZerosValue(k, init);
    }
  }

  /** Left-padding with '0' to at least `w` characters. */
  function ZeroPad(s: string, w: nat): (r: string)
    requires AllDigits(s)
    ensures |r| == if |s| < w then w else |s|
    ensures AllDigits(r) && DigitsValue(r) == DigitsValue(s)
  {
    if |s| < w then LeadingZerosValue(w - |s|, s); Zeros(w - |s|) + s else s
  }

  /** String.format("%04d", n): at least four characters, the sign counting
      towards the width. The text decodes back to `n`. */
  function Format04(n: int): (r: string)
    ensures |r| >= 4
    ensures 0 <= n <= 9999 ==> |r| == 4
    ensures n >= 0 ==> AllDigits(r) && DigitsValue(r) == n
    ensures n < 0 ==> r[0] == '-' && AllDigits(r[1..]) && DigitsValue(r[1..]) == -n
  {
    if n >= 0 then
      DigitsRoundTrip(n);
      DigitsAtMostFour(n);
      ZeroPad(Digits(n), 4)
    else
      DigitsRoundTrip(-n);
      "-" + ZeroPad(Digits(-n), 3)
  }

  /** Distinct numbers format to distinct texts. */
  lemma Format04Injective(m: int, n: int)
    requires Format04(m) == Format04(n)
    ensures m == n
  {
    if m < 0 && n < 0 {
      assert Format04(m)[1..] == Format04(n)[1..];
    }
  }

  /** Integer.toString / String.valueOf(int). */
  function IntToString(n: int): (r: string)
  {
    if n < 0 then "-" + Digits(-n) else Digits(n)
  }

  /** Long.parseLong: an optional sign, then at least one decimal digit,
      within the range of a Java `long`; anything else throws
      NumberFormatException (None here). */
  function ParseLong(s: string): (r: Option<int>)
    ensures r.Some? ==> MinLong <= r.value <= MaxLong
    ensures r.Some? ==> |s| >= 1 && forall k :: 0 < k < |s| ==> IsDigit(s[k])
    ensures r.Some? && s[0] != '-' ==> r.value >= 0
  {
    if |s| == 0 then None
    else
      var body := if s[0] == '-' || s[0] == '+' then s[1..] else s;
      if body == [] || !AllDigits(body) then None
      else
        var v: int := if s[0] == '-' then 0 - (DigitsValue(body) as int) else DigitsValue(body) as int;
        if MinLong <= v <= MaxLong then Some(v) else None
  }

  /** Long.parseLong reads back what String.valueOf wrote. */
  lemma ParseLongIntToString(n: int)
    requires MinLong <= n <= MaxLong
    ensures ParseLong(IntToString(n)) == Some(n)
  {
    var s := IntToString(n);
    if n < 0 {
      var d := Digits(-n);
      DigitsRoundTrip(-n);
      assert s == "-" + d;
      assert s[0] == '-' && s[1..] == d;
    } else {
      var d := Digits(n);
      DigitsRoundTrip(n);
      assert s == d && IsDigit(d[0]);
    }
  }

  /** Long.parseLong reads back what String.format("%04d", n) wrote. */
  lemma ParseLongFormat04(n: int)
    requires MinLong <= n <= MaxLong
    ensures ParseLong(Format04(n)) == Some(n)
  {
    var s := Format04(n);
    if n < 0 {
      assert s[0] == '-';
    } else {
      assert IsDigit(s[0]);
    }
  }
}
