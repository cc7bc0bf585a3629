/** The two standard-library conversions the engine bridge relies on: `std::stoi` with
    base 10 or 16 (leading white space, an optional sign, an optional "0x" prefix in
    base 16, then the longest run of digits; no digit or a value outside the 32-bit
    range is a failure), and `std::to_string` of an integer. */
module Numeric {
  import opened Wrappers

  const IntMin: int := -0x8000_0000
  const IntMax: int := 0x7FFF_FFFF

  /** The characters `isspace` accepts in the "C" locale. */
  predicate IsSpace(c: char) {
    c == ' ' || c == '\t' || c == '\n' || c == '\U{B}' || c == '\U{C}' || c == '\r'
  }

  /** `c` is a digit of the base: 0-9, and a-f or A-F in base 16. */
  predicate IsDigitIn(c: char, base: int) {
    ('0' <= c <= '9') || (base == 16 && (('a' <= c <= 'f') || ('A' <= c <= 'F')))
  }

  function DigitValue(c: char, base: int): (v: nat)
    requires IsDigitIn(c, base)
    ensures v < base || (base != 16 && v < 10)
  {
    if '0' <= c <= '9' then c as int - '0' as int
    else if 'a' <= c <= 'f' then c as int - 'a' as int + 10
    else c as int - 'A' as int + 10
  }

  /** The number of leading white-space characters. */
  function SpacePrefix(s: string): (k: nat)
    ensures k <= |s| && (forall i :: 0 <= i < k ==> IsSpace(s[i])) && (k < |s| ==> !IsSpace(s[k]))
  {
    if s != [] && IsSpace(s[0]) then 1 + SpacePrefix(s[1..]) else 0
  }

  /** The length of the longest prefix made of digits of the base. */
  function DigitPrefix(s: string, base: int): (k: nat)
    ensures k <= |s| && (forall i :: 0 <= i < k ==> IsDigitIn(s[i], base)) && (k < |s| ==> !IsDigitIn(s[k], base))
  {
    if s != [] && IsDigitIn(s[0], base) then 1 + DigitPrefix(s[1..], base) else 0
  }

  /** The value of a string of digits, most significant first. */
  function ValueOf(ds: string, base: int): nat
    requires forall i :: 0 <= i < |ds| ==> IsDigitIn(ds[i], base)
    requires base == 10 || base == 16
    decreases |ds|
  {
    if ds == [] then 0 else ValueOf(ds[..|ds| - 1], base) * base + DigitValue(ds[|ds| - 1], base)
  }

  /** `std::stoi(s, nullptr, base)`; none where the library throws. */
  function Stoi(s: string, base: int): (r: Option<int>)
    requires base == 10 || base == 16
    ensures r.Some? ==> IntMin <= r.value <= IntMax
  {
    var t := s[SpacePrefix(s)..];
    var negative := |t| > 0 && t[0] == '-';
    var u := if |t| > 0 && (t[0] == '+' || t[0] == '-') then t[1..] else t;
    var w := if base == 16 && |u| >= 3 && u[0] == '0' && (u[1] == 'x' || u[1] == 'X') && IsDigitIn(u[2], 16)
             then u[2..] else u;
    var k := DigitPrefix(w, base);
    if k == 0 then None
    else
      var magnitude: int := ValueOf(w[..k], base);
      var v: int := if negative then -magnitude else magnitude;
      if IntMin <= v <= IntMax then Some(v) else None
  }

  /** The decimal digits of a natural number, without leading zeros. */
  function Decimal(n: nat): (s: string)
    ensures |s| >= 1 && forall i :: 0 <= i < |s| ==> '0' <= s[i] <= '9'
    decreases n
  {
    if n < 10 then [('0' as int + n) as char] else Decimal(n / 10) + [('0' as int + n % 10) as char]
  }

  /** `std::to_string` of an integer. */
  function IntToString(n: int): (s: string)
    ensures n >= 0 ==> s == Decimal(n)
    ensures n < 0 ==> s == "-" + Decimal(-n)
  {
    if n >= 0 then Decimal(n) else "-" + Decimal(-n)
  }

  /** Reading back the decimal digits of a number gives the number. */
  lemma {:induction false} ValueOfDecimal(n: nat)
    ensures ValueOf(Decimal(n), 10) == n
    decreases n
  {
    if n >= 10 {
      var s := Decimal(n);
      assert s[..|s| - 1] == Decimal(n / 10);
      ValueOfDecimal(n / 10);
    }
  }

  /** A string that is all digits and whose value fits parses to that value. */
  lemma StoiOfDigits(s: string, base: int)
    requires base == 10 || base == 16
    requires |s| >= 1 && forall i :: 0 <= i < |s| ==> '0' <= s[i] <= '9'
    requires ValueOf(s, base) <= IntMax
    ensures Stoi(s, base) == Some(ValueOf(s, base))
  {
    assert IsDigitIn(s[0], base) && !IsSpace(s[0]);
    assert SpacePrefix(s) == 0;
    assert s[0..] == s;
    assert s[0] != '+' && s[0] != '-';
    assert |s| >= 2 ==> s[1] != 'x' && s[1] != 'X';
    assert DigitPrefix(s, base) == |s|;
    assert s[..|s|] == s;
  }

  /** `std::stoi(std::to_string(n))` is `n` for every natural number in range. */
  lemma StoiOfIntToString(n: int)
    requires 0 <= n <= IntMax
    ensures Stoi(IntToString(n), 10) == Some(n)
  {
    ValueOfDecimal(n);
    StoiOfDigits(Decimal(n), 10);
  }

  /** Decimal parsing stops at the first character that is not a digit. */
  lemma StoiStopsAtNonDigit(ds: string, rest: string)
    requires |ds| >= 1 && forall i :: 0 <= i < |ds| ==> '0' <= ds[i] <= '9'
    requires ValueOf(ds, 10) <= IntMax
    requires rest == [] || !IsDigitIn(rest[0], 10)
    ensures Stoi(ds + rest, 10) == Some(ValueOf(ds, 10))
  {
    var s := ds + rest;
    assert s[0] == ds[0];
    assert SpacePrefix(s) == 0;
    assert s[0..] == s;
    DigitPrefixOfConcat(ds, rest, 10);
    assert s[..|ds|] == ds;
  }

  lemma {:induction false} DigitPrefixOfConcat(ds: string, rest: string, base: int)
    requires forall i :: 0 <= i < |ds| ==> IsDigitIn(ds[i], base)
    requires rest == [] || !IsDigitIn(rest[0], base)
    ensures DigitPrefix(ds + rest, base) == |ds|
    decreases |ds|
  {
    if ds != [] {
      assert (ds + rest)[1..] == ds[1..] + rest;
      DigitPrefixOfConcat(ds[1..], rest, base);
    } else {
      assert ds + rest == rest;
    }
  }

  /** A string with no digit after its white space and sign does not parse. */
  lemma StoiNoDigits(s: string, base: int)
    requires base == 10 || base == 16
    requires forall i :: 0 <= i < |s| ==> !IsDigitIn(s[i], base)
    ensures Stoi(s, base).None?
  {
  }
}
