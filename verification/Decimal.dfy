/** Numbers as the reports print them, and their reading back. */
module Decimal {
  import opened Wrappers

  function Digit(d: nat): char
    requires d < 10
  {
    '0' + d as char
  }

  function NatText(n: nat): string {
    if n < 10 then [Digit(n)] else NatText(n / 10) + [Digit(n % 10)]
  }

  function Sign(n: int): string {
    if n < 0 then "-" else ""
  }

  function Magnitude(n: int): nat {
    if n < 0 then -n else n
  }

  /** `String(n)`. */
  function IntText(n: int): string {
    Sign(n) + NatText(Magnitude(n))
  }

  /** `(cents / 100).toFixed(2)`, in exact arithmetic. */
  function EurText(cents: int): string {
    var m := Magnitude(cents);
    Sign(cents) + NatText(m / 100) + "." + [Digit(m / 10 % 10), Digit(m % 10)]
  }

  /** Positional reading, most significant digit first. */
  function NatValue(s: string): int {
    if s == "" then 0 else 10 * NatValue(s[..|s| - 1]) + (s[|s| - 1] as int - '0' as int)
  }

  function IntValue(s: string): int {
    if s != "" && s[0] == '-' then -NatValue(s[1..]) else NatValue(s)
  }

  ghost predicate AllDigits(s: string) {
    forall c :: c in s ==> '0' <= c <= '9'
  }

  /** Digits as one writes a number: some, and no zero in front of others. */
  ghost predicate IsNumeral(s: string) {
    s != "" && AllDigits(s) && (1 < |s| ==> s[0] != '0')
  }

  /** An amount in euros without a sign, read as cents: a numeral, a point and two digits, nothing else. */
  ghost function Euros(t: string): Option<int> {
    if |t| < 4 || t[|t| - 3] != '.' || !IsNumeral(t[..|t| - 3]) || !AllDigits(t[|t| - 2..]) then None
    else Some(100 * NatValue(t[..|t| - 3]) + NatValue(t[|t| - 2..]))
  }

  ghost function CentsValue(s: string): Option<int> {
    if s == "" || s[0] != '-' then Euros(s)
    else
      match Euros(s[1..])
      case None => None
      case Some(cents) => Some(-cents)
  }

  lemma DigitBack(s: string, d: nat)
    requires d < 10
    ensures NatValue(s + [Digit(d)]) == 10 * NatValue(s) + d
  {
    assert (s + [Digit(d)])[..|s|] == s;
  }

  lemma {:induction false} NatBack(n: nat)
    ensures NatValue(NatText(n)) == n
    ensures IsNumeral(NatText(n)) && (0 < n ==> NatText(n)[0] != '0')
  {
    if n < 10 {
      DigitBack("", n);
      OneDigit(n);
      assert "" + [Digit(n)] == [Digit(n)];
    } else {
      var (q, r) := (n / 10, n % 10);
      assert n == 10 * q + r && NatText(n) == NatText(q) + [Digit(r)];
      NatBack(q);
      DigitBack(NatText(q), r);
      DigitBehind(NatText(q), r);
      hide *;
    }
  }

  lemma OneDigit(d: nat)
    requires d < 10
    ensures IsNumeral([Digit(d)]) && AllDigits([Digit(d)]) && (0 < d ==> [Digit(d)][0] != '0')
  {
  }

  lemma DigitBehind(s: string, d: nat)
    requires d < 10 && IsNumeral(s) && s[0] != '0'
    ensures IsNumeral(s + [Digit(d)]) && (s + [Digit(d)])[0] != '0'
  {
  }

  /** A printed integer is a sign if need be and a numeral, and reads back as itself. */
  lemma IntBack(n: int)
    ensures IntValue(IntText(n)) == n
    ensures exists digits :: IntText(n) == (if n < 0 then "-" else "") + digits && IsNumeral(digits)
  {
    hide NatText, NatValue;
    NatBack(Magnitude(n));
    var digits := NatText(Magnitude(n));
    assert digits[0] in digits;
    assert ("-" + digits)[1..] == digits;
    assert "" + digits == digits;
    assert IntText(n) == (if n < 0 then "-" else "") + digits;
  }

  lemma TwoDigits(n: nat)
    requires n < 100
    ensures NatValue([Digit(n / 10), Digit(n % 10)]) == n && AllDigits([Digit(n / 10), Digit(n % 10)])
  {
    DigitBack("", n / 10);
    DigitBack([Digit(n / 10)], n % 10);
    assert "" + [Digit(n / 10)] == [Digit(n / 10)];
    assert [Digit(n / 10)] + [Digit(n % 10)] == [Digit(n / 10), Digit(n % 10)];
  }

  lemma ReadEuros(whole: string, last: string)
    requires IsNumeral(whole) && AllDigits(last) && |last| == 2
    ensures Euros(whole + "." + last) == Some(100 * NatValue(whole) + NatValue(last))
    ensures (whole + "." + last)[0] != '-'
  {
    NoSignInFront(whole);
    hide IsNumeral, AllDigits, NatValue;
    var t := whole + "." + last;
    assert t[..|t| - 3] == whole;
    assert t[|t| - 2..] == last;
    assert t[|t| - 3] == '.' && t[0] == whole[0];
  }

  lemma Signed(cents: int, t: string)
    requires t != "" && t[0] != '-' && Euros(t) == Some(Magnitude(cents))
    ensures CentsValue(Sign(cents) + t) == Some(cents)
  {
    hide Euros;
    assert "" + t == t && ("-" + t)[1..] == t;
  }

  lemma NoSignInFront(digits: string)
    requires IsNumeral(digits)
    ensures digits != "" && digits[0] != '-'
  {
    assert digits[0] in digits;
  }

  lemma TwoPlaces(n: nat, b: nat)
    requires b < 10
    ensures (10 * n + b) / 10 == n && (10 * n + b) % 10 == b
  {
  }

  lemma LastTwo(m: nat)
    ensures m % 100 / 10 == m / 10 % 10 && m % 100 % 10 == m % 10 && 100 * (m / 100) + m % 100 == m
  {
    var (q, r) := (m / 100, m % 100);
    var (a, b) := (r / 10, r % 10);
    assert m == 10 * (10 * q + a) + b;
    TwoPlaces(10 * q + a, b);
    TwoPlaces(q, a);
  }

  lemma EurParts(cents: int)
    ensures var m := Magnitude(cents);
            EurText(cents) == Sign(cents) + (NatText(m / 100) + "." + [Digit(m % 100 / 10), Digit(m % 100 % 10)])
  {
    hide NatText, Digit, Sign;
    LastTwo(Magnitude(cents));
  }

  /** A printed euro amount has its point two digits before the end and reads back as its cents, with its sign. */
  lemma EurBack(cents: int)
    ensures CentsValue(EurText(cents)) == Some(cents)
  {
    hide CentsValue, EurText, NatText, NatValue, AllDigits, IsNumeral, Digit, Euros, Sign, Magnitude;
    var m := Magnitude(cents);
    var (q, r) := (m / 100, m % 100);
    LastTwo(m);
    NatBack(q);
    TwoDigits(r);
    EurParts(cents);
    var (whole, last) := (NatText(q), [Digit(r / 10), Digit(r % 10)]);
    ReadEuros(whole, last);
    Signed(cents, whole + "." + last);
  }
}
