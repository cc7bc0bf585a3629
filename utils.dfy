/** The theme colour parser: "#RRGGBB" or "#RRGGBBAA" (the '#' optional) into the four
    8-bit channels of a colour. */
module Utils {
  import opened Wrappers
  import opened Numeric

  /** A colour's channels, each the byte the library stores. */
  datatype Color = Color(r: int, g: int, b: int, a: int)

  /** The conversion of an `int` to an unsigned 8-bit channel: modulo 256. */
  function Byte(v: int): (c: int)
    ensures 0 <= c < 256
    ensures 0 <= v < 256 ==> c == v
  {
    v % 256
  }

  /** The colour code without one leading '#'. An empty code is left as it is: its first
      character reads as the terminating NUL. */
  function StripHash(hex: string): (clean: string)
    ensures |hex| > 0 && hex[0] == '#' ==> clean == hex[1..]
    ensures !(|hex| > 0 && hex[0] == '#') ==> clean == hex
  {
    if |hex| > 0 && hex[0] == '#' then hex[1..] else hex
  }

  /** One channel: the two characters at `i` read in base 16; none where `std::stoi`
      throws. */
  function Channel(clean: string, i: nat): (r: Option<int>)
    requires i + 2 <= |clean|
    ensures r.Some? ==> 0 <= r.value < 256
    ensures r.Some? <==> Stoi(clean[i..i + 2], 16).Some?
  {
    match Stoi(clean[i..i + 2], 16)
    case None => None
    case Some(v) => Some(Byte(v))
  }

  /** The alpha channel of the eight-digit form: the pair's value over 255, truncated to
      an integer. A pair has at most two digits, so the quotient lies in (-1, 1] and
      truncates to 1 exactly when the pair is 255. */
  function AlphaOf(v: int): (a: int)
    ensures a == 1 <==> v == 255
  {
    if v == 255 then 1 else 0
  }

  /** `hexToSDLColor`; none for a length other than 6 or 8 after the '#', and where a
      pair does not parse (there the library throws). */
  function HexToColor(hex: string): (r: Option<Color>)
    ensures r.Some? ==> |StripHash(hex)| == 6 || |StripHash(hex)| == 8
    ensures r.Some? ==> 0 <= r.value.r < 256 && 0 <= r.value.g < 256 && 0 <= r.value.b < 256
    ensures r.Some? && |StripHash(hex)| == 6 ==> r.value.a == 1
    ensures var clean := StripHash(hex);
      r.Some? ==>
        |clean| >= 6 &&
        Channel(clean, 0) == Some(r.value.r) && Channel(clean, 2) == Some(r.value.g) &&
        Channel(clean, 4) == Some(r.value.b)
    ensures var clean := StripHash(hex);
      r.Some? && |clean| == 8 ==> Stoi(clean[6..8], 16).Some? && r.value.a == AlphaOf(Stoi(clean[6..8], 16).value)
    ensures var clean := StripHash(hex);
      r.None? <==>
        ((|clean| != 6 && |clean| != 8) ||
         Channel(clean, 0).None? || Channel(clean, 2).None? || Channel(clean, 4).None? ||
         (|clean| == 8 && Stoi(clean[6..8], 16).None?))
  {
    var clean := StripHash(hex);
    if |clean| == 6 || |clean| == 8 then
      var r := Channel(clean, 0);
      var g := Channel(clean, 2);
      var b := Channel(clean, 4);
      if r.None? || g.None? || b.None? then None
      else if |clean| == 6 then Some(Color(r.value, g.value, b.value, 1))
      else
        match Stoi(clean[6..8], 16)
        case None => None
        case Some(alpha) => Some(Color(r.value, g.value, b.value, AlphaOf(alpha)))
    else None
  }

  /** `hexToSDLColor` as the library runs it: the code is cleaned of its '#', then the
      channels of the colour are filled in one by one, alpha starting at 1. */
  method HexToSdlColor(hexCode: string) returns (r: Option<Color>)
    ensures r == HexToColor(hexCode)
  {
    var color := Color(0, 0, 0, 1);
    var cleanHex := hexCode;
    if |cleanHex| > 0 && cleanHex[0] == '#' {
      cleanHex := cleanHex[1..];
    }
    if |cleanHex| != 6 && |cleanHex| != 8 {
      return None;
    }
    var red := Channel(cleanHex, 0);
    var green := Channel(cleanHex, 2);
    var blue := Channel(cleanHex, 4);
    if red.None? || green.None? || blue.None? {
      return None;
    }
    color := color.(r := red.value, g := green.value, b := blue.value);
    if |cleanHex| == 8 {
      var alphaHex := Stoi(cleanHex[6..8], 16);
      if alphaHex.None? {
        return None;
      }
      color := color.(a := AlphaOf(alphaHex.value));
    }
    return Some(color);
  }

  /** The hexadecimal digit of 0..15, lower case. */
  function HexDigit(d: int): (c: char)
    requires 0 <= d < 16
    ensures IsDigitIn(c, 16) && DigitValue(c, 16) == d
  {
    if d < 10 then ('0' as int + d) as char else ('a' as int + d - 10) as char
  }

  /** A channel written as two hexadecimal digits. */
  function Hex2(v: int): (s: string)
    requires 0 <= v < 256
    ensures |s| == 2
  {
    [HexDigit(v / 16), HexDigit(v % 16)]
  }

  /** Two hexadecimal digits read back as the channel they write. */
  lemma StoiOfHex2(v: int)
    requires 0 <= v < 256
    ensures Stoi(Hex2(v), 16) == Some(v)
  {
    var s := Hex2(v);
    assert !IsSpace(s[0]) && SpacePrefix(s) == 0;
    assert s[0..] == s;
    assert DigitPrefix(s[1..], 16) == 1;
    assert DigitPrefix(s, 16) == 2;
    assert s[..2] == s;
    assert s[..1] == [s[0]];
    assert ValueOf(s[..1], 16) == DigitValue(s[0], 16);
  }

  /** Writing three channels as "#RRGGBB" and parsing the code gives them back, with
      alpha 1 as the parser sets it (out of 255 for an 8-bit channel). */
  lemma HexToColorRoundTrip(r: int, g: int, b: int)
    requires 0 <= r < 256 && 0 <= g < 256 && 0 <= b < 256
    ensures HexToColor("#" + Hex2(r) + Hex2(g) + Hex2(b)) == Some(Color(r, g, b, 1))
  {
    var code := "#" + Hex2(r) + Hex2(g) + Hex2(b);
    var clean := Hex2(r) + Hex2(g) + Hex2(b);
    assert StripHash(code) == clean;
    assert clean[0..2] == Hex2(r) && clean[2..4] == Hex2(g) && clean[4..6] == Hex2(b);
    StoiOfHex2(r);
    StoiOfHex2(g);
    StoiOfHex2(b);
  }

  /** Writing four channels as "#RRGGBBAA" and parsing the code gives back the three
      colour channels, with the alpha read from the fourth pair. */
  lemma HexToColorRoundTrip8(r: int, g: int, b: int, a: int)
    requires 0 <= r < 256 && 0 <= g < 256 && 0 <= b < 256 && 0 <= a < 256
    ensures HexToColor("#" + Hex2(r) + Hex2(g) + Hex2(b) + Hex2(a)) == Some(Color(r, g, b, AlphaOf(a)))
  {
    var code := "#" + Hex2(r) + Hex2(g) + Hex2(b) + Hex2(a);
    var clean := Hex2(r) + Hex2(g) + Hex2(b) + Hex2(a);
    assert StripHash(code) == clean;
    assert clean[0..2] == Hex2(r) && clean[2..4] == Hex2(g) && clean[4..6] == Hex2(b) && clean[6..8] == Hex2(a);
    StoiOfHex2(r);
    StoiOfHex2(g);
    StoiOfHex2(b);
    StoiOfHex2(a);
  }

  /** The '#' is optional: a code and the same code behind one '#' parse alike. */
  lemma HashIsOptional(hex: string)
    requires |hex| > 0 && hex[0] != '#'
    ensures HexToColor("#" + hex) == HexToColor(hex)
  {
    assert ("#" + hex)[1..] == hex;
  }

  /** Only one '#' is stripped: behind two, no six- or eight-character code parses,
      because its first pair starts with '#'. */
  lemma SecondHashFails(hex: string)
    requires |hex| == 5 || |hex| == 7
    ensures HexToColor("##" + hex).None?
  {
    var clean := StripHash("##" + hex);
    assert clean == "#" + hex;
    var pair := clean[0..2];
    assert pair[0] == '#' && !IsSpace(pair[0]) && !IsDigitIn(pair[0], 16);
    assert SpacePrefix(pair) == 0;
    assert pair[0..] == pair;
  }
}
