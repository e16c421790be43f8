/** `hexToRgb` (app/pages/game.tsx): the room panel's background colour is the theme
    colour, parsed by the regular expression `/^#?([a-f\d]{2})([a-f\d]{2})([a-f\d]{2})$/i`
    and `parseInt(pair, 16)`, with black for anything that does not match. */
module Colors {
  import opened Js

  datatype Rgb = Rgb(r: int, g: int, b: int)

  const Black: Rgb := Rgb(0, 0, 0)

  /** Every channel is a byte. */
  predicate IsByteColor(c: Rgb)
  {
    0 <= c.r < 256 && 0 <= c.g < 256 && 0 <= c.b < 256
  }

  /** `[a-f\d]` under the `i` flag: ASCII digits and the letters a-f in either case. */
  predicate IsHexDigit(c: char)
  {
    '0' <= c <= '9' || 'a' <= c <= 'f' || 'A' <= c <= 'F'
  }

  /** The value of one hexadecimal digit, as `parseInt` reads it. */
  function HexValue(c: char): (v: nat)
    requires IsHexDigit(c)
    ensures v < 16
    ensures '0' <= c <= '9' ==> v == c as int - '0' as int
    ensures !('0' <= c <= '9') ==> 10 <= v
  {
    if '0' <= c <= '9' then c as int - '0' as int
    else if 'a' <= c <= 'f' then c as int - 'a' as int + 10
    else c as int - 'A' as int + 10
  }

  /** The lower-case digit for a value below 16. */
  function HexDigit(v: nat): (c: char)
    requires v < 16
    ensures IsHexDigit(c) && HexValue(c) == v
    ensures !('A' <= c <= 'Z')
  {
    if v < 10 then ('0' as int + v) as char else ('a' as int + v - 10) as char
  }

  /** What the six capture groups are read from: the text after an optional leading `#`. */
  function Digits(s: string): (d: string)
    ensures |d| == |s| || (|d| == |s| - 1 && s[0] == '#')
  {
    if |s| > 0 && s[0] == '#' then s[1..] else s
  }

  /** The regular expression matches: an optional `#` and then exactly six hex digits,
      nothing before and nothing after. */
  predicate IsHexColor(s: string)
    ensures IsHexColor(s) ==> |s| == 6 || (|s| == 7 && s[0] == '#')
  {
    var d := Digits(s);
    |d| == 6 && forall i :: 0 <= i < 6 ==> IsHexDigit(d[i])
  }

  /** `parseInt(hi + lo, 16)` for two hex digits. */
  function ParseByte(hi: char, lo: char): (v: nat)
    requires IsHexDigit(hi) && IsHexDigit(lo)
    ensures v < 256
  {
    16 * HexValue(hi) + HexValue(lo)
  }

  /** `hexToRgb(hex)`. */
  function HexToRgb(s: string): (c: Rgb)
    ensures IsByteColor(c)
    ensures !IsHexColor(s) ==> c == Black
  {
    if IsHexColor(s) then
      var d := Digits(s);
      Rgb(ParseByte(d[0], d[1]), ParseByte(d[2], d[3]), ParseByte(d[4], d[5]))
    else Black
  }

  /** The canonical spelling of a colour: `#` and six lower-case digits. */
  function ToHex(c: Rgb): (s: string)
    requires IsByteColor(c)
    ensures |s| == 7 && s[0] == '#' && IsHexColor(s)
  {
    ['#', HexDigit(c.r / 16), HexDigit(c.r % 16),
          HexDigit(c.g / 16), HexDigit(c.g % 16),
          HexDigit(c.b / 16), HexDigit(c.b % 16)]
  }

  /** Parsing the canonical spelling of a colour gives the colour back. */
  lemma HexToRgbToHex(c: Rgb)
    requires IsByteColor(c)
    ensures HexToRgb(ToHex(c)) == c
  {
  }

  /** The digit of a digit's value is that digit, lower-cased. */
  lemma HexDigitOfValue(ch: char)
    requires IsHexDigit(ch)
    ensures HexDigit(HexValue(ch)) == LowerChar(ch)
  {
  }

  /** Every accepted string is a spelling of the colour it parses to: respelt canonically
      it is the same text, lower-cased and with the `#` made explicit. */
  lemma ToHexHexToRgb(s: string)
    requires IsHexColor(s)
    ensures ToHex(HexToRgb(s)) == "#" + ToLowerCase(Digits(s))
  {
    var d := Digits(s);
    PairDigits(d[0], d[1]);
    PairDigits(d[2], d[3]);
    PairDigits(d[4], d[5]);
    var lower := [LowerChar(d[0]), LowerChar(d[1]), LowerChar(d[2]),
                  LowerChar(d[3]), LowerChar(d[4]), LowerChar(d[5])];
    assert ToHex(HexToRgb(s)) == ['#'] + lower;
    assert ToLowerCase(d) == lower;
  }

  lemma PairDigits(hi: char, lo: char)
    requires IsHexDigit(hi) && IsHexDigit(lo)
    ensures HexDigit(ParseByte(hi, lo) / 16) == LowerChar(hi)
    ensures HexDigit(ParseByte(hi, lo) % 16) == LowerChar(lo)
  {
    var v := ParseByte(hi, lo);
    assert v / 16 == HexValue(hi) && v % 16 == HexValue(lo);
    HexDigitOfValue(hi);
    HexDigitOfValue(lo);
  }

  /** Letter case never matters: `/i` makes `A-F` and `a-f` the same digits, and
      lower-casing does not turn a non-matching string into a matching one. */
  lemma HexToRgbIgnoresCase(s: string)
    ensures HexToRgb(ToLowerCase(s)) == HexToRgb(s)
  {
    var l := ToLowerCase(s);
    assert Digits(l) == ToLowerCase(Digits(s));
    var d, e := Digits(s), Digits(l);
    forall i | 0 <= i < |d| ensures IsHexDigit(e[i]) == IsHexDigit(d[i]) {
      LowerCharHex(d[i]);
    }
    if IsHexColor(s) {
      forall i | 0 <= i < 6 ensures HexValue(e[i]) == HexValue(d[i]) {
        LowerCharHex(d[i]);
      }
    }
  }

  lemma LowerCharHex(c: char)
    ensures IsHexDigit(LowerChar(c)) == IsHexDigit(c)
    ensures IsHexDigit(c) ==> HexValue(LowerChar(c)) == HexValue(c)
  {
  }

  /** The `#` is optional: six digits parse the same with or without it. */
  lemma HexToRgbOptionalHash(s: string)
    requires |s| == 0 || s[0] != '#'
    ensures HexToRgb("#" + s) == HexToRgb(s)
  {
    assert Digits("#" + s) == s;
  }

  /** Wrong length, a non-hex character, or a second `#` all give black. */
  lemma HexToRgbRejects()
    ensures HexToRgb("#4A657") == Black
    ensures HexToRgb("4A65720") == Black
    ensures HexToRgb("#4G6572") == Black
    ensures HexToRgb("##4A6572") == Black
    ensures HexToRgb("") == Black
  {
    assert !IsHexDigit('G');
    assert Digits("#4G6572")[1] == 'G';
  }
}
