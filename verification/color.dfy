/**
 * darkenColor: the dark end of a special orb's gradient. A "#rrggbb"
 * colour is split into three channels, each channel is scaled down by a
 * percentage and rounded down, and the result is written back as lowercase
 * hexadecimal padded to two digits.
 */
module Color {
  import opened Orbs

  predicate IsHexDigit(c: char)
  {
    '0' <= c <= '9' || 'a' <= c <= 'f' || 'A' <= c <= 'F'
  }

  predicate IsLowerHexDigit(c: char)
  {
    '0' <= c <= '9' || 'a' <= c <= 'f'
  }

  predicate AllHex(s: string)
  {
    forall i :: 0 <= i < |s| ==> IsHexDigit(s[i])
  }

  predicate AllLowerHex(s: string)
  {
    forall i :: 0 <= i < |s| ==> IsLowerHexDigit(s[i])
  }

  /** A colour as the catalog writes it: '#' and six hexadecimal digits of either case. */
  predicate IsHexColor(s: string)
  {
    |s| == 7 && s[0] == '#' && forall i :: 1 <= i < 7 ==> IsHexDigit(s[i])
  }

  /** A colour as darkenColor writes it: lowercase digits only. */
  predicate IsLowerHexColor(s: string)
  {
    |s| == 7 && s[0] == '#' && forall i :: 1 <= i < 7 ==> IsLowerHexDigit(s[i])
  }

  function HexVal(c: char): (v: nat)
    requires IsHexDigit(c)
    ensures v < 16
  {
    if '0' <= c <= '9' then c as int - '0' as int
    else if 'a' <= c <= 'f' then c as int - 'a' as int + 10
    else c as int - 'A' as int + 10
  }

  /** The digits Number.prototype.toString(16) writes, by value. */
  const LowerDigits: string := "0123456789abcdef"

  /** The lowercase digit written for a value below 16. */
  function HexDigit(v: nat): (c: char)
    requires v < 16
    ensures IsLowerHexDigit(c) && HexVal(c) == v
  {
    LowerDigits[v]
  }

  /** The lowercase form of a hexadecimal digit. */
  function LowerDigit(c: char): (d: char)
    requires IsHexDigit(c)
    ensures IsLowerHexDigit(d) && HexVal(d) == HexVal(c)
  {
    HexDigit(HexVal(c))
  }

  /** parseInt(s, 16) on a string of hexadecimal digits. */
  function ParseHex(s: string): nat
    requires AllHex(s)
  {
    if |s| == 0 then 0 else ParseHex(s[..|s| - 1]) * 16 + HexVal(s[|s| - 1])
  }

  /** Number.prototype.toString(16) on a non-negative integer: lowercase, no leading zero. */
  function NatHex(n: nat): (s: string)
    ensures |s| >= 1 && AllLowerHex(s) && AllHex(s)
    ensures |s| > 1 ==> s[0] != '0'
    decreases n
  {
    if n < 16 then [HexDigit(n)] else NatHex(n / 16) + [HexDigit(n % 16)]
  }

  /** Number.prototype.toString(16) on any integer: a negative value gets a minus sign. */
  function IntHex(n: int): string
  {
    if n < 0 then "-" + NatHex(-n) else NatHex(n)
  }

  /** String.prototype.padStart(width, fill). */
  function PadStart(s: string, width: nat, fill: char): string
  {
    if |s| >= width then s else seq(width - |s|, _ => fill) + s
  }

  /** Channel i (0 red, 1 green, 2 blue) of a colour, as parseInt(substring, 16) reads it. */
  function Channel(color: string, i: nat): (v: nat)
    requires IsHexColor(color) && i < 3
    ensures v < 256
  {
    HexVal(color[2 * i + 1]) * 16 + HexVal(color[2 * i + 2])
  }

  /** Math.floor(v * (100 - percent) / 100); the divisor is positive, so Dafny's division floors too. */
  function Darken(v: int, percent: int): int
  {
    v * (100 - percent) / 100
  }

  /** One channel written back: toString(16), then padStart(2, '0'). */
  function ChannelHex(v: int): string
  {
    PadStart(IntHex(v), 2, '0')
  }

  /** The template literal that joins the three channels. */
  function Rgb(r: int, g: int, b: int): string
  {
    "#" + ChannelHex(r) + ChannelHex(g) + ChannelHex(b)
  }

  /** darkenColor(color, percent). */
  function DarkenColor(color: string, percent: int): (r: string)
    requires IsHexColor(color)
    ensures 0 <= percent <= 100 ==> IsLowerHexColor(r) && IsHexColor(r)
  {
    var r := Darken(Channel(color, 0), percent);
    var g := Darken(Channel(color, 1), percent);
    var b := Darken(Channel(color, 2), percent);
    // Both branches give the same string; the test only brings the bounds
    // lemmas, which need a percentage in 0..100, into the well-formedness proof.
    if 0 <= percent <= 100 then
      DarkenBounds(Channel(color, 0), percent);
      DarkenBounds(Channel(color, 1), percent);
      DarkenBounds(Channel(color, 2), percent);
      RgbWellFormed(r, g, b);
      Rgb(r, g, b)
    else Rgb(r, g, b)
  }

  /** The lowercase form of a catalog colour. */
  function Lowercase(color: string): (r: string)
    requires IsHexColor(color)
    ensures IsLowerHexColor(r) && IsHexColor(r)
    ensures forall i :: 1 <= i < 7 ==> HexVal(r[i]) == HexVal(color[i])
  {
    ['#', LowerDigit(color[1]), LowerDigit(color[2]), LowerDigit(color[3]),
     LowerDigit(color[4]), LowerDigit(color[5]), LowerDigit(color[6])]
  }

  // ---------------------------------------------------------------------
  // Lemmas
  // ---------------------------------------------------------------------

  /** Reading back what toString(16) writes gives the number. */
  lemma {:induction false} NatHexRoundTrip(n: nat)
    ensures ParseHex(NatHex(n)) == n
    decreases n
  {
    if n >= 16 {
      var s := NatHex(n);
      assert s[..|s| - 1] == NatHex(n / 16);
      NatHexRoundTrip(n / 16);
    }
  }

  /** A lowercase digit is the digit written for its value. */
  lemma DigitRoundTrip(c: char)
    requires IsLowerHexDigit(c)
    ensures HexDigit(HexVal(c)) == c
  {
  }

  /** A channel value is written as exactly two lowercase digits: high nibble, then low nibble. */
  lemma ByteHex(v: int)
    requires 0 <= v < 256
    ensures ChannelHex(v) == [HexDigit(v / 16), HexDigit(v % 16)]
  {
    if v < 16 {
      assert IntHex(v) == [HexDigit(v)];
    } else {
      assert NatHex(v / 16) == [HexDigit(v / 16)];
    }
  }

  /** Conversely, two lowercase digits are exactly how their value is written. */
  lemma ByteHexInverse(hi: char, lo: char)
    requires IsLowerHexDigit(hi) && IsLowerHexDigit(lo)
    ensures ChannelHex(HexVal(hi) * 16 + HexVal(lo)) == [hi, lo]
  {
    var v := HexVal(hi) * 16 + HexVal(lo);
    ByteHex(v);
    assert v / 16 == HexVal(hi) && v % 16 == HexVal(lo);
    DigitRoundTrip(hi);
    DigitRoundTrip(lo);
  }

  /** Three channels in range are written as '#' and their six nibbles. */
  lemma RgbDigits(r: int, g: int, b: int)
    requires 0 <= r < 256 && 0 <= g < 256 && 0 <= b < 256
    ensures Rgb(r, g, b) == ['#', HexDigit(r / 16), HexDigit(r % 16), HexDigit(g / 16), HexDigit(g % 16),
                             HexDigit(b / 16), HexDigit(b % 16)]
  {
    ByteHex(r);
    ByteHex(g);
    ByteHex(b);
    var hr, hg, hb := ChannelHex(r), ChannelHex(g), ChannelHex(b);
    assert "#" + hr == ['#', hr[0], hr[1]];
    assert "#" + hr + hg == ['#', hr[0], hr[1], hg[0], hg[1]];
  }

  /** Three channels in range make a well-formed lowercase colour. */
  lemma RgbWellFormed(r: int, g: int, b: int)
    requires 0 <= r < 256 && 0 <= g < 256 && 0 <= b < 256
    ensures IsLowerHexColor(Rgb(r, g, b)) && IsHexColor(Rgb(r, g, b))
  {
    RgbDigits(r, g, b);
    DigitsColor(HexDigit(r / 16), HexDigit(r % 16), HexDigit(g / 16), HexDigit(g % 16),
                HexDigit(b / 16), HexDigit(b % 16));
  }

  lemma DigitsColor(c1: char, c2: char, c3: char, c4: char, c5: char, c6: char)
    requires IsLowerHexDigit(c1) && IsLowerHexDigit(c2) && IsLowerHexDigit(c3)
    requires IsLowerHexDigit(c4) && IsLowerHexDigit(c5) && IsLowerHexDigit(c6)
    ensures IsLowerHexColor(['#', c1, c2, c3, c4, c5, c6]) && IsHexColor(['#', c1, c2, c3, c4, c5, c6])
  {
  }

  /** For a percentage from 0 to 100 the darkened channel stays between 0 and the original. */
  lemma DarkenBounds(v: int, percent: int)
    requires 0 <= v && 0 <= percent <= 100
    ensures 0 <= Darken(v, percent) <= v
  {
    assert v * (100 - percent) <= v * 100;
  }

  /** A larger percentage never gives a lighter channel. */
  lemma DarkenMonotone(v: int, p: int, q: int)
    requires 0 <= v && p <= q
    ensures Darken(v, q) <= Darken(v, p)
  {
    assert v * (100 - q) <= v * (100 - p);
  }

  /** Reading back the three channels of a written colour gives the channel values. */
  lemma RgbChannels(r: int, g: int, b: int)
    requires 0 <= r < 256 && 0 <= g < 256 && 0 <= b < 256
    ensures IsHexColor(Rgb(r, g, b))
    ensures Channel(Rgb(r, g, b), 0) == r && Channel(Rgb(r, g, b), 1) == g && Channel(Rgb(r, g, b), 2) == b
  {
    RgbDigits(r, g, b);
    var c1, c2, c3, c4, c5, c6 := HexDigit(r / 16), HexDigit(r % 16), HexDigit(g / 16), HexDigit(g % 16),
                                  HexDigit(b / 16), HexDigit(b % 16);
    DigitsChannels(c1, c2, c3, c4, c5, c6);
    assert (r / 16) * 16 + r % 16 == r;
    assert (g / 16) * 16 + g % 16 == g;
    assert (b / 16) * 16 + b % 16 == b;
  }

  /** The channels of '#' followed by six lowercase digits. */
  lemma DigitsChannels(c1: char, c2: char, c3: char, c4: char, c5: char, c6: char)
    requires IsLowerHexDigit(c1) && IsLowerHexDigit(c2) && IsLowerHexDigit(c3)
    requires IsLowerHexDigit(c4) && IsLowerHexDigit(c5) && IsLowerHexDigit(c6)
    ensures IsHexColor(['#', c1, c2, c3, c4, c5, c6])
    ensures Channel(['#', c1, c2, c3, c4, c5, c6], 0) == HexVal(c1) * 16 + HexVal(c2)
    ensures Channel(['#', c1, c2, c3, c4, c5, c6], 1) == HexVal(c3) * 16 + HexVal(c4)
    ensures Channel(['#', c1, c2, c3, c4, c5, c6], 2) == HexVal(c5) * 16 + HexVal(c6)
  {
    DigitsColor(c1, c2, c3, c4, c5, c6);
  }

  /** Each channel of the result reads back as the original channel scaled down and floored. */
  lemma DarkenColorChannels(color: string, percent: int)
    requires IsHexColor(color) && 0 <= percent <= 100
    ensures Channel(DarkenColor(color, percent), 0) == Darken(Channel(color, 0), percent)
    ensures Channel(DarkenColor(color, percent), 1) == Darken(Channel(color, 1), percent)
    ensures Channel(DarkenColor(color, percent), 2) == Darken(Channel(color, 2), percent)
  {
    var r := Darken(Channel(color, 0), percent);
    var g := Darken(Channel(color, 1), percent);
    var b := Darken(Channel(color, 2), percent);
    DarkenBounds(Channel(color, 0), percent);
    DarkenBounds(Channel(color, 1), percent);
    DarkenBounds(Channel(color, 2), percent);
    assert DarkenColor(color, percent) == Rgb(r, g, b);
    RgbChannels(r, g, b);
  }

  /** darkenColor writes its three darkened channels. */
  lemma DarkenColorIsRgb(color: string, percent: int, r: int, g: int, b: int)
    requires IsHexColor(color)
    requires Darken(Channel(color, 0), percent) == r && Darken(Channel(color, 1), percent) == g
    requires Darken(Channel(color, 2), percent) == b
    ensures DarkenColor(color, percent) == Rgb(r, g, b)
  {
  }

  /** Writing back the channels of a colour unchanged gives its lowercase form. */
  lemma RgbOfChannels(color: string)
    requires IsHexColor(color)
    ensures Rgb(Channel(color, 0), Channel(color, 1), Channel(color, 2)) == Lowercase(color)
  {
    RgbOfDigits(color[1], color[2], color[3], color[4], color[5], color[6],
                Channel(color, 0), Channel(color, 1), Channel(color, 2));
  }

  /** Six hex digits read as three channels and written back come out in lowercase. */
  lemma RgbOfDigits(c1: char, c2: char, c3: char, c4: char, c5: char, c6: char, r: int, g: int, b: int)
    requires IsHexDigit(c1) && IsHexDigit(c2) && IsHexDigit(c3)
    requires IsHexDigit(c4) && IsHexDigit(c5) && IsHexDigit(c6)
    requires r == HexVal(c1) * 16 + HexVal(c2) && g == HexVal(c3) * 16 + HexVal(c4)
    requires b == HexVal(c5) * 16 + HexVal(c6)
    ensures Rgb(r, g, b)
         == ['#', LowerDigit(c1), LowerDigit(c2), LowerDigit(c3), LowerDigit(c4), LowerDigit(c5), LowerDigit(c6)]
  {
    PairHex(c1, c2, r);
    PairHex(c3, c4, g);
    PairHex(c5, c6, b);
    var hr, hg := ChannelHex(r), ChannelHex(g);
    assert "#" + hr == ['#', LowerDigit(c1), LowerDigit(c2)];
    assert "#" + hr + hg == ['#', LowerDigit(c1), LowerDigit(c2), LowerDigit(c3), LowerDigit(c4)];
  }

  /** Two hex digits read as one channel and written back come out in lowercase. */
  lemma PairHex(hi: char, lo: char, v: int)
    requires IsHexDigit(hi) && IsHexDigit(lo) && v == HexVal(hi) * 16 + HexVal(lo)
    ensures ChannelHex(v) == [LowerDigit(hi), LowerDigit(lo)]
  {
    ByteHex(v);
    NibblesOf(hi, lo);
  }

  /** Darkening by 0% keeps the colour, only in lowercase. */
  lemma DarkenByNothing(color: string)
    requires IsHexColor(color)
    ensures DarkenColor(color, 0) == Lowercase(color)
  {
    var r, g, b := Channel(color, 0), Channel(color, 1), Channel(color, 2);
    assert Darken(r, 0) == r && Darken(g, 0) == g && Darken(b, 0) == b;
    DarkenColorIsRgb(color, 0, r, g, b);
    RgbOfChannels(color);
  }

  /** The high and low nibble of a two-digit value are its two digits' values. */
  lemma NibblesOf(hi: char, lo: char)
    requires IsHexDigit(hi) && IsHexDigit(lo)
    ensures (HexVal(hi) * 16 + HexVal(lo)) / 16 == HexVal(hi)
    ensures (HexVal(hi) * 16 + HexVal(lo)) % 16 == HexVal(lo)
  {
  }

  /** Darkening by 100% gives black. */
  lemma DarkenToBlack(color: string)
    requires IsHexColor(color)
    ensures DarkenColor(color, 100) == "#000000"
  {
    var r, g, b := Channel(color, 0), Channel(color, 1), Channel(color, 2);
    assert Darken(r, 100) == 0 && Darken(g, 100) == 0 && Darken(b, 100) == 0;
    DarkenColorIsRgb(color, 100, 0, 0, 0);
    RgbDigits(0, 0, 0);
  }

  /** The catalog colour of each special-orb type. */
  function OrbColor(k: OrbKind): (c: string)
    ensures IsHexColor(c)
  {
    match k
    case Negative => "#ff0000"
    case Positive => "#00ff00"
    case SpeedUp => "#ffff00"
    case SlowDown => "#0000ff"
    case Crystal => "#9932CC"
  }

  /**
   * The crystal orb's catalog colour "#9932CC" darkens by 30% to "#6b238e":
   * 0x99, 0x32 and 0xCC at 70%, rounded down, are 0x6b, 0x23 and 0x8e.
   */
  lemma CrystalGradientEnd()
    ensures DarkenColor(OrbColor(Crystal), 30) == "#6b238e"
  {
    var c := OrbColor(Crystal);
    assert HexVal('9') == 9 && HexVal('3') == 3 && HexVal('2') == 2 && HexVal('C') == 12;
    assert Channel(c, 0) == 153 && Channel(c, 1) == 50 && Channel(c, 2) == 204;
    assert Darken(153, 30) == 107 && Darken(50, 30) == 35 && Darken(204, 30) == 142;
    DarkenColorIsRgb(c, 30, 107, 35, 142);
    RgbDigits(107, 35, 142);
    assert HexDigit(6) == '6' && HexDigit(11) == 'b' && HexDigit(2) == '2' && HexDigit(3) == '3';
    assert HexDigit(8) == '8' && HexDigit(14) == 'e';
  }
}
