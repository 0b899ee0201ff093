/** Theme colours: hex colour strings turned into the space-separated
    `"r g b"` channel triples the stylesheet reads, and the seven colour
    tokens a theme sets. Writing them to the document is left out. */
module ThemeColor {
  import opened Wrappers
  import opened Strings

  predicate IsHexDigit(c: char) {
    ('0' <= c <= '9') || ('a' <= c <= 'f') || ('A' <= c <= 'F')
  }

  function HexDigitValue(c: char): (v: nat)
    requires IsHexDigit(c)
    ensures v < 16
  {
    if '0' <= c <= '9' then c as int - '0' as int
    else if 'a' <= c <= 'f' then c as int - 'a' as int + 10
    else c as int - 'A' as int + 10
  }

  predicate IsHexDigits(s: string) {
    forall i :: 0 <= i < |s| ==> IsHexDigit(s[i])
  }

  function Pow16(n: nat): (r: nat)
    ensures r >= 1
  {
    if n == 0 then 1 else 16 * Pow16(n - 1)
  }

  /** The number a string of hexadecimal digits denotes. */
  function HexValue(s: string): (v: nat)
    requires IsHexDigits(s)
    ensures v < Pow16(|s|)
  {
    if s == [] then 0 else HexValue(s[..|s| - 1]) * 16 + HexDigitValue(s[|s| - 1])
  }

  /** The arithmetic of appending one digit on the right of `a + b'`. */
  lemma ShiftDistributes(v: int, x: int, p: int, y: int, digit: int, w: int, q: int)
    requires v == (x * p + y) * 16 + digit && w == y * 16 + digit && q == p * 16
    ensures v == x * q + w
  {
  }

  /** One more digit on the right shifts the value one place and adds the
      digit. */
  lemma HexValueSnoc(s: string, c: char)
    requires IsHexDigits(s) && IsHexDigit(c)
    ensures IsHexDigits(s + [c])
    ensures HexValue(s + [c]) == HexValue(s) * 16 + HexDigitValue(c)
  {
    assert (s + [c])[..|s|] == s;
  }

  /** The digits of `a + b` are worth those of `a` shifted left by `|b|`
      places, plus those of `b`. */
  lemma {:induction false} HexValueConcat(a: string, b: string)
    requires IsHexDigits(a) && IsHexDigits(b)
    ensures IsHexDigits(a + b)
    ensures HexValue(a + b) == HexValue(a) * Pow16(|b|) + HexValue(b)
  {
    if b == [] {
      assert a + b == a;
    } else {
      var b', c := b[..|b| - 1], b[|b| - 1];
      assert b == b' + [c];
      assert a + b == (a + b') + [c];
      HexValueConcat(a, b');
      HexValueSnoc(a + b', c);
      HexValueSnoc(b', c);
      ShiftDistributes(HexValue(a + b), HexValue(a), Pow16(|b'|), HexValue(b'), HexDigitValue(c), HexValue(b), Pow16(|b|));
    }
  }

  /** How many hexadecimal digits `s` starts with. */
  function HexPrefixLength(s: string): (n: nat)
    ensures n <= |s| && IsHexDigits(s[..n])
    ensures n < |s| ==> !IsHexDigit(s[n])
  {
    if s == [] || !IsHexDigit(s[0]) then 0
    else
      var n := 1 + HexPrefixLength(s[1..]);
      assert s[..n] == [s[0]] + s[1..][..n - 1];
      n
  }

  /** `Number.parseInt(s, 16)`: leading white space is skipped, one sign is
      read, a `0x`/`0X` prefix is dropped, and then the longest run of
      hexadecimal digits is the value; with no digit the result is NaN
      (`None`). */
  function ParseIntHex(s: string): (r: Option<int>)
    ensures r.Some? ==> -(Pow16(|s|) as int) < r.value < Pow16(|s|)
  {
    var t := TrimStart(s);
    var negative := |t| > 0 && t[0] == '-';
    var body := WithoutHexPrefix(Unsigned(t));
    var n := HexPrefixLength(body);
    if n == 0 then None
    else
      PowMonotone(n, |s|);
      var v: int := HexValue(body[..n]);
      Some(if negative then -v else v)
  }

  /** The text after one leading sign, if there is one. */
  function Unsigned(t: string): (r: string)
    ensures |r| <= |t|
  {
    if |t| > 0 && (t[0] == '-' || t[0] == '+') then t[1..] else t
  }

  /** The text after a leading `0x` or `0X`, if there is one. */
  function WithoutHexPrefix(u: string): (r: string)
    ensures |r| <= |u|
  {
    if |u| >= 2 && u[0] == '0' && (u[1] == 'x' || u[1] == 'X') then u[2..] else u
  }

  lemma {:induction false} PowMonotone(m: nat, n: nat)
    requires m <= n
    ensures Pow16(m) <= Pow16(n)
  {
    if m < n {
      PowMonotone(m, n - 1);
    }
  }

  const TWO_32: int := 0x1_0000_0000
  const TWO_31: int := 0x8000_0000

  /** ECMAScript ToInt32: NaN becomes 0, other values are taken modulo 2^32
      and read as a signed 32-bit integer. */
  function ToInt32(n: Option<int>): (r: int)
    ensures -TWO_31 <= r < TWO_31
  {
    match n
    case None => 0
    case Some(v) =>
      var u := v % TWO_32;
      if u >= TWO_31 then u - TWO_32 else u
  }

  /** `(x >> shift) & 255` on a signed 32-bit `x`: an arithmetic shift (a
      floor division by 2^shift) and the low eight bits of the result. */
  function ShiftMask(x: int, shift: nat): (r: int)
    requires shift == 0 || shift == 8 || shift == 16
    ensures 0 <= r <= 255
  {
    var divisor := if shift == 0 then 1 else if shift == 8 then 0x100 else 0x1_0000;
    (x / divisor) % 256
  }

  /** `hex.replace('#', '')`: only the first `#` is removed. */
  function RemoveFirstHash(hex: string): (r: string)
    ensures '#' !in hex ==> r == hex
    ensures '#' in hex ==> |r| == |hex| - 1
    ensures '#' in hex ==> exists i :: 0 <= i < |hex| && hex[i] == '#' && '#' !in hex[..i]
                                       && r == hex[..i] + hex[i + 1..]
  {
    var i := IndexOf(hex, '#');
    if i < 0 then hex else hex[..i] + hex[i + 1..]
  }

  /** A three-character value is expanded by doubling each character. */
  function Expand(v: string): (r: string)
    ensures |v| == 3 ==> |r| == 6 && forall i :: 0 <= i < 6 ==> r[i] == v[i / 2]
    ensures |v| != 3 ==> r == v
  {
    if |v| == 3 then [v[0], v[0], v[1], v[1], v[2], v[2]] else v
  }

  datatype Channels = Channels(r: int, g: int, b: int)

  /** Bits 16 to 23, 8 to 15 and 0 to 7 of a signed 32-bit value. */
  function ChannelsOfNumber(numeric: int): (c: Channels)
    ensures 0 <= c.r <= 255 && 0 <= c.g <= 255 && 0 <= c.b <= 255
  {
    Channels(ShiftMask(numeric, 16), ShiftMask(numeric, 8), ShiftMask(numeric, 0))
  }

  /** The red, green and blue channels the conversion reads from `hex`. */
  function ChannelsOf(hex: string): (c: Channels)
    ensures 0 <= c.r <= 255 && 0 <= c.g <= 255 && 0 <= c.b <= 255
  {
    ChannelsOfNumber(ToInt32(ParseIntHex(Expand(RemoveFirstHash(hex)))))
  }

  /** `hexToRgbChannels`: the three channels in decimal, separated by single spaces. */
  function HexToRgbChannels(hex: string): string {
    var c := ChannelsOf(hex);
    NatToString(c.r) + " " + NatToString(c.g) + " " + NatToString(c.b)
  }

  /** The output can be read back: it is three decimal numerals separated by
      single spaces, and the numerals denote the channels. */
  lemma OutputReadsBack(hex: string)
    ensures var c := ChannelsOf(hex);
      exists a, b, d ::
        && HexToRgbChannels(hex) == a + " " + b + " " + d
        && IsDigits(a) && IsDigits(b) && IsDigits(d)
        && ParseDecimal(a) == c.r && ParseDecimal(b) == c.g && ParseDecimal(d) == c.b
  {
    var c := ChannelsOf(hex);
    ParseNatToString(c.r);
    ParseNatToString(c.g);
    ParseNatToString(c.b);
    var a, b, d := NatToString(c.r), NatToString(c.g), NatToString(c.b);
    assert HexToRgbChannels(hex) == a + " " + b + " " + d;
  }

  /** A leading `#` is the one removed. */
  lemma LeadingHashRemoved(s: string)
    ensures RemoveFirstHash("#" + s) == s
  {
    assert ("#" + s)[0] == '#';
    assert ("#" + s)[1..] == s;
  }

  /** The short form `#abc` means the same colour as `#aabbcc`. */
  lemma ShortFormDoubles(s: string)
    requires |s| == 3
    ensures ChannelsOf("#" + s) == ChannelsOf("#" + [s[0], s[0], s[1], s[1], s[2], s[2]])
    ensures HexToRgbChannels("#" + s) == HexToRgbChannels("#" + [s[0], s[0], s[1], s[1], s[2], s[2]])
  {
    LeadingHashRemoved(s);
    LeadingHashRemoved([s[0], s[0], s[1], s[1], s[2], s[2]]);
  }

  /** A non-empty run of hexadecimal digits parses to its value. */
  lemma ParseHexDigits(d: string)
    requires d != [] && IsHexDigits(d)
    ensures ParseIntHex(d) == Some(HexValue(d))
  {
    assert IsHexDigit(d[0]) && !IsWhitespace(d[0]);
    assert TrimStart(d) == d;
    assert Unsigned(d) == d;
    assert |d| >= 2 ==> IsHexDigit(d[1]);
    assert WithoutHexPrefix(d) == d;
    HexPrefixAll(d);
    assert d[..|d|] == d;
  }

  /** Six hexadecimal digits are three bytes, most significant first. */
  lemma SixDigitValue(d: string)
    requires |d| == 6 && IsHexDigits(d)
    ensures HexValue(d) == HexValue(d[..2]) * 0x1_0000 + HexValue(d[2..4]) * 0x100 + HexValue(d[4..])
    ensures HexValue(d[..2]) < 256 && HexValue(d[2..4]) < 256 && HexValue(d[4..]) < 256
  {
    var r, g, b := d[..2], d[2..4], d[4..];
    assert d[..4] == r + g && d == d[..4] + b;
    assert Pow16(2) == 256;
    HexValueConcat(r, g);
    HexValueConcat(d[..4], b);
    var R, G, B := HexValue(r), HexValue(g), HexValue(b);
    assert HexValue(d[..4]) == R * 256 + G;
    assert HexValue(d) == (R * 256 + G) * 256 + B;
  }

  /** Shifting and masking a 24-bit value picks out its three bytes. */
  lemma ByteChannels(v: int, r: int, g: int, b: int)
    requires 0 <= r < 256 && 0 <= g < 256 && 0 <= b < 256
    requires v == r * 0x1_0000 + g * 0x100 + b
    ensures ToInt32(Some(v)) == v
    ensures ChannelsOfNumber(v) == Channels(r, g, b)
  {
    assert v / 0x1_0000 == r;
    assert v / 0x100 == r * 0x100 + g;
    assert (r * 0x100 + g) % 256 == g;
  }

  /** A value that fits in 31 bits is its own signed 32-bit reading. */
  lemma SmallToInt32(v: int)
    requires 0 <= v < TWO_31
    ensures ToInt32(Some(v)) == v
  {
    assert v % TWO_32 == v;
  }

  /** The number a plain six-digit colour converts to is the value of its digits. */
  lemma SixDigitNumber(d: string)
    requires |d| == 6 && IsHexDigits(d)
    ensures ToInt32(ParseIntHex(Expand(RemoveFirstHash("#" + d)))) == HexValue(d)
  {
    LeadingHashRemoved(d);
    ParseHexDigits(d);
    assert Pow16(6) == 0x100_0000;
    SmallToInt32(HexValue(d));
  }

  /** The three two-digit pairs of a six-digit colour, read as numbers. */
  function PairValues(d: string): Channels
    requires |d| == 6 && IsHexDigits(d)
  {
    Channels(HexValue(d[..2]), HexValue(d[2..4]), HexValue(d[4..]))
  }

  /** For a plain six-digit colour each channel is the value of its two
      hexadecimal digits. */
  lemma SixDigitChannels(d: string)
    requires |d| == 6 && IsHexDigits(d)
    ensures ChannelsOf("#" + d) == PairValues(d)
  {
    var v := HexValue(d);
    var c := PairValues(d);
    SixDigitNumber(d);
    SixDigitValue(d);
    ByteChannels(v, c.r, c.g, c.b);
    assert ChannelsOf("#" + d) == ChannelsOfNumber(v);
  }

  /** A string made only of hexadecimal digits is one whole run of them. */
  lemma {:induction false} HexPrefixAll(s: string)
    requires IsHexDigits(s)
    ensures HexPrefixLength(s) == |s|
  {
    if s != [] {
      HexPrefixAll(s[1..]);
    }
  }

  /** The text for a plain six-digit colour, pair by pair. */
  lemma SixDigitText(d: string)
    requires |d| == 6 && IsHexDigits(d)
    ensures var c := PairValues(d);
      HexToRgbChannels("#" + d) == NatToString(c.r) + " " + NatToString(c.g) + " " + NatToString(c.b)
  {
    SixDigitChannels(d);
  }

  lemma PrimaryDigits(d: string)
    requires d == "2563eb"
    ensures IsHexDigits(d) && |d| == 6
    ensures PairValues(d) == Channels(37, 99, 235)
  {
    assert d[..2] == "25" && d[2..4] == "63" && d[4..] == "eb";
    assert HexValue("25") == 37 && HexValue("63") == 99 && HexValue("eb") == 235;
  }

  lemma PrimaryNumerals()
    ensures NatToString(37) + " " + NatToString(99) + " " + NatToString(235) == "37 99 235"
  {
    assert NatToString(37) == "37" && NatToString(99) == "99" && NatToString(235) == "235";
  }

  /** The primary colour `#2563eb` becomes `"37 99 235"`. */
  lemma PrimaryExample(hex: string)
    requires hex == PRIMARY
    ensures HexToRgbChannels(hex) == "37 99 235"
  {
    var d := "2563eb";
    assert hex == "#" + d;
    PrimaryDigits(d);
    SixDigitText(d);
    PrimaryNumerals();
  }

  datatype ThemeName = Light | Dark

  datatype ThemeColors = ThemeColors(background: string, surface: string, border: string, muted: string, text: string)

  const PRIMARY := "#2563eb"
  const PRIMARY_FOREGROUND := "#f8fafc"

  function Palette(theme: ThemeName): ThemeColors {
    match theme
    case Light => ThemeColors("#f8fafc", "#ffffff", "#e2e8f0", "#64748b", "#0f172a")
    case Dark => ThemeColors("#020817", "#0f172a", "#1e293b", "#94a3b8", "#e2e8f0")
  }

  const TOKEN_NAMES: seq<string> := ["primary", "primary-foreground", "background", "surface", "border", "muted", "text"]

  /** The hex colour behind each token, in `TOKEN_NAMES` order. */
  function TokenSources(theme: ThemeName): seq<string> {
    var c := Palette(theme);
    [PRIMARY, PRIMARY_FOREGROUND, c.background, c.surface, c.border, c.muted, c.text]
  }

  /** `applyTheme`'s entries: each token name with the channels of its colour. */
  function ThemeEntries(theme: ThemeName): (entries: seq<(string, string)>)
    ensures |entries| == |TOKEN_NAMES| == 7
    ensures forall i :: 0 <= i < 7 ==>
      entries[i] == (TOKEN_NAMES[i], HexToRgbChannels(TokenSources(theme)[i]))
  {
    var src := TokenSources(theme);
    seq(7, i requires 0 <= i < 7 => (TOKEN_NAMES[i], HexToRgbChannels(src[i])))
  }

  /** Whatever the theme, the first entry `applyTheme` writes is the primary
      token with the channels `"37 99 235"`. */
  lemma PrimaryEntry(theme: ThemeName)
    ensures ThemeEntries(theme)[0] == ("primary", "37 99 235")
  {
    var src := TokenSources(theme);
    assert src[0] == PRIMARY;
    assert ThemeEntries(theme)[0] == (TOKEN_NAMES[0], HexToRgbChannels(src[0]));
    PrimaryExample(PRIMARY);
  }
}
