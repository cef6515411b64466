/**
  Swarm colours and the link "fade": a swarm id picks one of seven fixed
  #RRGGBB colours, and a link is drawn in that colour darkened by an opacity
  factor (each channel scaled and truncated, not alpha-blended).
 */
module Palette {

  /** The seven swarm colours, in the order a swarm id cycles through them. */
  const Colors: seq<string> := ["#FF6060", "#60FF60", "#6060FF", "#FF60FF", "#60FFFF", "#FFB060", "#B060FF"]

  /** The colour of swarm `swarmId`: the palette entry at `swarmId` modulo 7
      (the source's `%` floors, so a negative id still lands in 0..6, as Dafny's does). */
  function SwarmColor(swarmId: int): (c: string)
    ensures c in Colors
  {
    Colors[swarmId % |Colors|]
  }

  // ---------------------------------------------------------------------------
  // Hexadecimal digits and colour strings

  predicate IsHexDigit(c: char) {
    '0' <= c <= '9' || 'a' <= c <= 'f' || 'A' <= c <= 'F'
  }

  predicate IsLowerHexDigit(c: char) {
    '0' <= c <= '9' || 'a' <= c <= 'f'
  }

  /** `#` followed by six hexadecimal digits of either case. */
  predicate IsHexColor(s: string) {
    |s| == 7 && s[0] == '#' && forall i :: 1 <= i < 7 ==> IsHexDigit(s[i])
  }

  /** `#` followed by six lower-case hexadecimal digits, the form `:02x` produces. */
  predicate IsLowerHexColor(s: string) {
    |s| == 7 && s[0] == '#' && forall i :: 1 <= i < 7 ==> IsLowerHexDigit(s[i])
  }

  /** The value of one hexadecimal digit, as `int(_, 16)` reads it. */
  function DigitValue(c: char): (v: nat)
    requires IsHexDigit(c)
    ensures v < 16
  {
    if '0' <= c <= '9' then (c - '0') as nat
    else if 'a' <= c <= 'f' then (c - 'a') as nat + 10
    else (c - 'A') as nat + 10
  }

  /** The lower-case digit for a value below 16, as the `x` format writes it. */
  function LowerDigit(v: nat): (c: char)
    requires v < 16
    ensures IsLowerHexDigit(c)
  {
    if v < 10 then '0' + v as char else 'a' + (v - 10) as char
  }

  function ToLower(c: char): char {
    if 'A' <= c <= 'Z' then c - 'A' + 'a' else c
  }

  function Lowercase(s: string): (r: string)
    ensures |r| == |s|
    ensures forall i :: 0 <= i < |s| ==> r[i] == ToLower(s[i])
  {
    seq(|s|, i requires 0 <= i < |s| => ToLower(s[i]))
  }

  /** Two hexadecimal digits read as one byte, as `int(base_color[a:a+2], 16)` does. */
  function ParseByte(hi: char, lo: char): (v: nat)
    requires IsHexDigit(hi) && IsHexDigit(lo)
    ensures v < 256
  {
    16 * DigitValue(hi) + DigitValue(lo)
  }

  /** A byte as exactly two lower-case hexadecimal digits, as `:02x` writes it. */
  function FormatByte(v: nat): (s: string)
    requires v < 256
    ensures |s| == 2 && IsLowerHexDigit(s[0]) && IsLowerHexDigit(s[1])
  {
    [LowerDigit(v / 16), LowerDigit(v % 16)]
  }

  /** A formatted byte reads back as the byte. */
  lemma ParseFormatByte(v: nat)
    requires v < 256
    ensures var s := FormatByte(v); ParseByte(s[0], s[1]) == v
  {
    var s := FormatByte(v);
    assert DigitValue(s[0]) == v / 16 && DigitValue(s[1]) == v % 16;
  }

  /** Red (k = 0), green (k = 1) or blue (k = 2) channel of a colour string. */
  function Channel(s: string, k: nat): (v: nat)
    requires IsHexColor(s) && k < 3
    ensures v < 256
  {
    ParseByte(s[2 * k + 1], s[2 * k + 2])
  }

  /** `int(v * opacity)`: the product truncated toward zero, which for a
      non-negative product is its floor. */
  function Scale(v: nat, opacity: real): (r: nat)
    requires 0.0 <= opacity <= 1.0
    ensures r <= v
  {
    assert v as real * opacity <= v as real * 1.0;
    (v as real * opacity).Floor
  }

  /** The base colour with every channel scaled by `opacity`, re-encoded as
      `#rrggbb` in lower case. */
  function ColorWithOpacity(base: string, opacity: real): (c: string)
    requires IsHexColor(base) && 0.0 <= opacity <= 1.0
    ensures IsLowerHexColor(c)
    ensures Channel(c, 0) == Scale(Channel(base, 0), opacity)
    ensures Channel(c, 1) == Scale(Channel(base, 1), opacity)
    ensures Channel(c, 2) == Scale(Channel(base, 2), opacity)
  {
    var r, g, b := Scale(Channel(base, 0), opacity), Scale(Channel(base, 1), opacity), Scale(Channel(base, 2), opacity);
    FormatChannels(r, g, b);
    "#" + FormatByte(r) + FormatByte(g) + FormatByte(b)
  }

  /** Three bytes written one after the other after `#` read back channel by channel. */
  lemma FormatChannels(r: nat, g: nat, b: nat)
    requires r < 256 && g < 256 && b < 256
    ensures var c := "#" + FormatByte(r) + FormatByte(g) + FormatByte(b);
      IsLowerHexColor(c) && IsHexColor(c) && Channel(c, 0) == r && Channel(c, 1) == g && Channel(c, 2) == b
  {
    var fr, fg, fb := FormatByte(r), FormatByte(g), FormatByte(b);
    var c := "#" + fr + fg + fb;
    ParseFormatByte(r);
    ParseFormatByte(g);
    ParseFormatByte(b);
    assert c[1] == fr[0] && c[2] == fr[1] && c[3] == fg[0] && c[4] == fg[1] && c[5] == fb[0] && c[6] == fb[1];
  }

  // ---------------------------------------------------------------------------
  // Properties of the palette

  /** Every palette entry is a well-formed colour, so every swarm colour can be faded. */
  lemma SwarmColorIsHexColor(swarmId: int)
    ensures IsHexColor(SwarmColor(swarmId))
  {
    var k := swarmId % |Colors|;
    assert 0 <= k < 7;
    if k == 0 { assert SwarmColor(swarmId) == "#FF6060"; }
    else if k == 1 { assert SwarmColor(swarmId) == "#60FF60"; }
    else if k == 2 { assert SwarmColor(swarmId) == "#6060FF"; }
    else if k == 3 { assert SwarmColor(swarmId) == "#FF60FF"; }
    else if k == 4 { assert SwarmColor(swarmId) == "#60FFFF"; }
    else if k == 5 { assert SwarmColor(swarmId) == "#FFB060"; }
    else { assert SwarmColor(swarmId) == "#B060FF"; }
  }

  /** Ids that differ by a multiple of seven share a colour. */
  lemma SwarmColorPeriodic(swarmId: int, n: int)
    ensures SwarmColor(swarmId + 7 * n) == SwarmColor(swarmId)
  {
    var q, r := swarmId / 7, swarmId % 7;
    assert swarmId + 7 * n == 7 * (q + n) + r;
    assert (swarmId + 7 * n) % 7 == r;
  }

  /** Two swarms get the same colour exactly when their ids agree modulo seven:
      the seven entries are pairwise different. */
  lemma SwarmColorSameIff(a: int, b: int)
    ensures SwarmColor(a) == SwarmColor(b) <==> a % 7 == b % 7
  {
    forall i, j | 0 <= i < j < 7
      ensures Colors[i] != Colors[j]
    {
      assert Colors[i][1] != Colors[j][1] || Colors[i][3] != Colors[j][3] || Colors[i][5] != Colors[j][5];
    }
  }

  // ---------------------------------------------------------------------------
  // Properties of the fade

  /** Reading back two formatted digits gives the byte; formatting a parsed
      pair gives the pair in lower case. */
  lemma FormatParseByte(hi: char, lo: char)
    requires IsHexDigit(hi) && IsHexDigit(lo)
    ensures FormatByte(ParseByte(hi, lo)) == [ToLower(hi), ToLower(lo)]
  {
    var h, l := DigitValue(hi), DigitValue(lo);
    assert (16 * h + l) / 16 == h && (16 * h + l) % 16 == l;
    assert LowerDigit(h) == ToLower(hi);
    assert LowerDigit(l) == ToLower(lo);
  }

  /** Channel `k` of the faded colour is base channel `k` scaled. */
  lemma FadedChannel(base: string, opacity: real, k: nat)
    requires IsHexColor(base) && 0.0 <= opacity <= 1.0 && k < 3
    ensures Channel(ColorWithOpacity(base, opacity), k) == Scale(Channel(base, k), opacity)
  {
    if k == 0 {
    } else if k == 1 {
    } else {
    }
  }

  /** At full opacity the colour is unchanged up to letter case
      ("#FF6060" becomes "#ff6060"). */
  lemma FullOpacityKeepsColor(base: string)
    requires IsHexColor(base)
    ensures ColorWithOpacity(base, 1.0) == Lowercase(base)
  {
    var c := ColorWithOpacity(base, 1.0);
    forall k | 0 <= k < 3
      ensures c[2 * k + 1] == ToLower(base[2 * k + 1]) && c[2 * k + 2] == ToLower(base[2 * k + 2])
    {
      var v := Channel(base, k);
      FadedChannel(base, 1.0, k);
      assert Scale(v, 1.0) == v;
      FormatParseByte(base[2 * k + 1], base[2 * k + 2]);
      FormatParseByte(c[2 * k + 1], c[2 * k + 2]);
      assert ParseByte(c[2 * k + 1], c[2 * k + 2]) == v;
      assert c[2 * k + 1] == ToLower(c[2 * k + 1]) && c[2 * k + 2] == ToLower(c[2 * k + 2]);
    }
    assert c == Lowercase(base);
  }

  /** At zero opacity every colour fades to black. */
  lemma ZeroOpacityIsBlack(base: string)
    requires IsHexColor(base)
    ensures ColorWithOpacity(base, 0.0) == "#000000"
  {
    var c := ColorWithOpacity(base, 0.0);
    forall k | 0 <= k < 3
      ensures c[2 * k + 1] == '0' && c[2 * k + 2] == '0'
    {
      FadedChannel(base, 0.0, k);
      assert Channel(c, k) == 0;
    }
  }

  /** Scaling by a larger factor never gives a smaller byte. */
  lemma ScaleMonotone(v: nat, o1: real, o2: real)
    requires 0.0 <= o1 <= o2 <= 1.0
    ensures Scale(v, o1) <= Scale(v, o2)
  {
    var rv: real := v as real;
    assert rv * o1 <= rv * o2 by {
      assert rv * o2 - rv * o1 == rv * (o2 - o1);
      assert 0.0 <= rv && 0.0 <= o2 - o1;
    }
    FloorMonotone(rv * o1, rv * o2);
  }

  /** Rounding down keeps the order of two reals. */
  lemma FloorMonotone(x: real, y: real)
    requires x <= y
    ensures x.Floor <= y.Floor
  {
    assert x.Floor as real <= x <= y < y.Floor as real + 1.0;
  }

  /** Fading never brightens a channel, and a dimmer opacity never gives a
      brighter channel than a brighter one. */
  lemma FadeIsMonotone(base: string, o1: real, o2: real, k: nat)
    requires IsHexColor(base) && 0.0 <= o1 <= o2 <= 1.0 && k < 3
    ensures IsLowerHexColor(ColorWithOpacity(base, o1)) && IsLowerHexColor(ColorWithOpacity(base, o2))
    ensures Channel(ColorWithOpacity(base, o1), k) <= Channel(ColorWithOpacity(base, o2), k) <= Channel(base, k)
  {
    FadedChannel(base, o1, k);
    FadedChannel(base, o2, k);
    ScaleMonotone(Channel(base, k), o1, o2);
  }
}
