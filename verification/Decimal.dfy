/** Base-10 rendering of integers: what strconv.FormatInt(n, 10) and the %d verb print. */
module Decimal {

  function Digit(d: nat): (c: char)
    requires d < 10
  {
    ('0' as int + d) as char
  }

  predicate IsDigit(c: char) {
    '0' <= c <= '9'
  }

  predicate AllDigits(s: string) {
    forall i :: 0 <= i < |s| ==> IsDigit(s[i])
  }

  function Natural(n: nat): (s: string) {
    if n < 10 then [Digit(n)] else Natural(n / 10) + [Digit(n % 10)]
  }

  function Format(n: int): (s: string) {
    if n < 0 then "-" + Natural(-n) else Natural(n)
  }

  /** The number a string of digits denotes. */
  function Value(s: string): (n: nat)
    requires AllDigits(s)
  {
    if s == "" then 0 else 10 * Value(s[..|s| - 1]) + (s[|s| - 1] as int - '0' as int)
  }

  lemma {:induction false} NaturalRoundTrip(n: nat)
    ensures Natural(n) != "" && AllDigits(Natural(n)) && Value(Natural(n)) == n
  {
    if n >= 10 {
      NaturalRoundTrip(n / 10);
      var s := Natural(n);
      assert s[..|s| - 1] == Natural(n / 10);
    } else {
      var s := Natural(n);
      assert s[..|s| - 1] == "";
    }
  }

  /** The number an optional minus sign and digits denote. */
  function Signed(s: string): (n: int)
    requires s != "" && AllDigits(if s[0] == '-' then s[1..] else s)
  {
    if s[0] == '-' then 0 - Value(s[1..]) else Value(s)
  }

  lemma FormatRoundTrip(n: int)
    ensures var s := Format(n); s != "" && AllDigits(if s[0] == '-' then s[1..] else s) && Signed(s) == n
  {
    if n < 0 {
      NaturalRoundTrip(-n);
      assert Format(n)[1..] == Natural(-n);
    } else {
      NaturalRoundTrip(n);
    }
  }

  lemma FormatInjective(a: int, b: int)
    requires Format(a) == Format(b)
    ensures a == b
  {
    FormatRoundTrip(a);
    FormatRoundTrip(b);
  }

  lemma FormatHasNo(n: int, c: char)
    requires !IsDigit(c) && c != '-'
    ensures c !in Format(n)
  {
    NaturalRoundTrip(if n < 0 then -n else n);
  }
}
