/**
 * The style model of the configuration (`Style`, `Color`, `Decoration`) and its
 * translation to the terminal library's style record (`to_ansi`). The escape
 * bytes that record stands for are not modelled: `AnsiStyle` is the record
 * itself, with its two optional colours and eight flags.
 */
module StyleModel {
  import opened Wrappers
  import opened Text

  type Byte = x: nat | x < 256

  datatype NamedColor = Default | Black | Red | Green | Yellow | Blue | Purple | Cyan | White

  datatype HexColor = HexColor(r: Byte, g: Byte, b: Byte)

  /** A configured colour: a name, an index of the 256-colour palette, or `#rrggbb`. */
  datatype Color = Named(name: NamedColor) | Fixed(index: Byte) | Hex(hex: HexColor)

  datatype Decoration = Bold | Dimmed | Italic | Underline | Blink | Reverse | Hidden | Strikethrough

  datatype Style = Style(foreground: Color, background: Color, decoration: seq<Decoration>)

  /** The terminal library's colour (`ansi_term::Colour`). */
  datatype Colour = Black | Red | Green | Yellow | Blue | Purple | Cyan | White
                  | Fixed(n: Byte) | RGB(r: Byte, g: Byte, b: Byte)

  /** The terminal library's style record (`ansi_term::Style`). */
  datatype AnsiStyle = AnsiStyle(
    foreground: Option<Colour>,
    background: Option<Colour>,
    isBold: bool,
    isDimmed: bool,
    isItalic: bool,
    isUnderline: bool,
    isBlink: bool,
    isReverse: bool,
    isHidden: bool,
    isStrikethrough: bool)

  /** `Style::new()`: no colour, no flag. */
  const Plain: AnsiStyle := AnsiStyle(None, None, false, false, false, false, false, false, false, false)

  /** `Style::new().fg(c)`. */
  function FgOnly(c: Colour): AnsiStyle {
    Plain.(foreground := Some(c))
  }

  // ---------------------------------------------------------------------------
  // Colours
  // ---------------------------------------------------------------------------

  /** The configured colour a terminal colour stands for (the inverse of `ColorToAnsi`). */
  function ColorOf(c: Colour): Color {
    match c
    case Black => Named(NamedColor.Black)
    case Red => Named(NamedColor.Red)
    case Green => Named(NamedColor.Green)
    case Yellow => Named(NamedColor.Yellow)
    case Blue => Named(NamedColor.Blue)
    case Purple => Named(NamedColor.Purple)
    case Cyan => Named(NamedColor.Cyan)
    case White => Named(NamedColor.White)
    case Fixed(n) => Color.Fixed(n)
    case RGB(r, g, b) => Hex(HexColor(r, g, b))
  }

  /**
   * `Color::to_ansi`: the default colour gives no terminal colour; every
   * other colour gives the terminal colour it names, indexes or spells out.
   */
  function ColorToAnsi(c: Color): (r: Option<Colour>)
    ensures r.None? <==> c == Named(Default)
    ensures r.Some? ==> ColorOf(r.value) == c
  {
    match c
    case Named(name) => (
      match name
      case Default => None
      case Black => Some(Colour.Black)
      case Red => Some(Colour.Red)
      case Green => Some(Colour.Green)
      case Yellow => Some(Colour.Yellow)
      case Blue => Some(Colour.Blue)
      case Purple => Some(Colour.Purple)
      case Cyan => Some(Colour.Cyan)
      case White => Some(Colour.White))
    case Fixed(n) => Some(Colour.Fixed(n))
    case Hex(HexColor(r, g, b)) => Some(RGB(r, g, b))
  }

  /** Every terminal colour is reached by exactly the configured colour `ColorOf` gives. */
  lemma ColourRoundTrip(c: Colour)
    ensures ColorToAnsi(ColorOf(c)) == Some(c)
  {
  }

  /** `Color::default()`: the colour that emits no attribute. */
  function DefaultColor(): (c: Color)
    ensures ColorToAnsi(c).None?
  {
    Named(Default)
  }

  // ---------------------------------------------------------------------------
  // Styles
  // ---------------------------------------------------------------------------

  /** One decoration applied to a style record (`style.bold()`, `style.italic()`, ...). */
  function Decorate(st: AnsiStyle, d: Decoration): (r: AnsiStyle)
    ensures r.foreground == st.foreground && r.background == st.background
    ensures r.isBold == (st.isBold || d == Bold)
    ensures r.isDimmed == (st.isDimmed || d == Dimmed)
    ensures r.isItalic == (st.isItalic || d == Italic)
    ensures r.isUnderline == (st.isUnderline || d == Underline)
    ensures r.isBlink == (st.isBlink || d == Blink)
    ensures r.isReverse == (st.isReverse || d == Reverse)
    ensures r.isHidden == (st.isHidden || d == Hidden)
    ensures r.isStrikethrough == (st.isStrikethrough || d == Strikethrough)
  {
    match d
    case Bold => st.(isBold := true)
    case Dimmed => st.(isDimmed := true)
    case Italic => st.(isItalic := true)
    case Underline => st.(isUnderline := true)
    case Blink => st.(isBlink := true)
    case Reverse => st.(isReverse := true)
    case Hidden => st.(isHidden := true)
    case Strikethrough => st.(isStrikethrough := true)
  }

  /** The decorations applied one after the other, in list order. */
  function DecorateAll(st: AnsiStyle, ds: seq<Decoration>): AnsiStyle {
    if ds == [] then st else Decorate(DecorateAll(st, ds[..|ds| - 1]), ds[|ds| - 1])
  }

  /** The style record `Style::to_ansi` computes. */
  function AnsiOf(s: Style): AnsiStyle {
    var st := DecorateAll(Plain, s.decoration);
    st.(foreground := ColorToAnsi(s.foreground), background := ColorToAnsi(s.background))
  }

  /** A flag of the decorated record is set exactly when its decoration was listed. */
  predicate FlagsOf(st: AnsiStyle, ds: seq<Decoration>) {
    && st.isBold == (Bold in ds)
    && st.isDimmed == (Dimmed in ds)
    && st.isItalic == (Italic in ds)
    && st.isUnderline == (Underline in ds)
    && st.isBlink == (Blink in ds)
    && st.isReverse == (Reverse in ds)
    && st.isHidden == (Hidden in ds)
    && st.isStrikethrough == (Strikethrough in ds)
  }

  lemma {:induction false} DecorateAllFlags(ds: seq<Decoration>)
    ensures FlagsOf(DecorateAll(Plain, ds), ds)
    ensures DecorateAll(Plain, ds).foreground == None && DecorateAll(Plain, ds).background == None
  {
    if ds != [] {
      var init := ds[..|ds| - 1];
      DecorateAllFlags(init);
      assert ds == init + [ds[|ds| - 1]];
      FlagsStep(DecorateAll(Plain, init), init, ds[|ds| - 1]);
    }
  }

  /** Applying one more decoration keeps the flags in step with the list. */
  lemma FlagsStep(st: AnsiStyle, ds: seq<Decoration>, d: Decoration)
    requires FlagsOf(st, ds)
    ensures FlagsOf(Decorate(st, d), ds + [d])
  {
    forall e: Decoration ensures e in ds + [d] <==> e in ds || e == d { }
  }

  /**
   * What the record of `to_ansi` holds: a colour attribute only for a colour
   * other than the default, and each flag exactly when its decoration is
   * listed, however often and in whatever order.
   */
  lemma AnsiOfMeaning(s: Style)
    ensures AnsiOf(s).foreground.None? <==> s.foreground == Named(Default)
    ensures AnsiOf(s).background.None? <==> s.background == Named(Default)
    ensures FlagsOf(AnsiOf(s), s.decoration)
  {
    DecorateAllFlags(s.decoration);
  }

  /** Listing a decoration twice gives the same record as listing it once. */
  lemma AnsiOfDuplicateDecoration(s: Style, d: Decoration)
    requires d in s.decoration
    ensures AnsiOf(s.(decoration := s.decoration + [d])) == AnsiOf(s)
  {
    var t := s.(decoration := s.decoration + [d]);
    assert t.decoration[..|t.decoration| - 1] == s.decoration;
    DecorateAllFlags(s.decoration);
  }

  /** `Style::to_ansi`: the decorations folded in list order, then the two colours. */
  method ToAnsi(s: Style) returns (st: AnsiStyle)
    ensures st == AnsiOf(s)
  {
    st := Plain;
    for i := 0 to |s.decoration|
      invariant st == DecorateAll(Plain, s.decoration[..i])
      invariant st.foreground == None && st.background == None
    {
      assert s.decoration[..i + 1][..i] == s.decoration[..i];
      st := Decorate(st, s.decoration[i]);
    }
    assert s.decoration[..|s.decoration|] == s.decoration;
    var fg := ColorToAnsi(s.foreground);
    if fg.Some? {
      st := st.(foreground := fg);
    }
    var bg := ColorToAnsi(s.background);
    if bg.Some? {
      st := st.(background := bg);
    }
  }

  // ---------------------------------------------------------------------------
  // Hex colours
  // ---------------------------------------------------------------------------

  /** The value of a hexadecimal digit, either case. */
  function HexDigit(c: char): Option<nat> {
    if '0' <= c <= '9' then Some(c as int - '0' as int)
    else if 'a' <= c <= 'f' then Some(c as int - 'a' as int + 10)
    else if 'A' <= c <= 'F' then Some(c as int - 'A' as int + 10)
    else None
  }

  predicate IsHexDigits(s: string) {
    forall i :: 0 <= i < |s| ==> HexDigit(s[i]).Some?
  }

  /** The value of a string of hexadecimal digits. */
  function HexValue(s: string): (v: nat)
    requires IsHexDigits(s)
    ensures v < Pow16(|s|)
  {
    if s == [] then 0 else HexValue(s[..|s| - 1]) * 16 + HexDigit(s[|s| - 1]).value
  }

  function Pow16(n: nat): (p: nat)
    ensures p >= 1
  {
    if n == 0 then 1 else 16 * Pow16(n - 1)
  }

  /**
   * `u32::from_str_radix(s, 16)`: an optional `+`, then at least one hex
   * digit, the value below 2^32.
   */
  function FromStrRadix16(s: string): Option<nat> {
    var digits := if |s| > 0 && s[0] == '+' then s[1..] else s;
    if digits == [] || !IsHexDigits(digits) then None
    else if HexValue(digits) >= 0x1_0000_0000 then None
    else Some(HexValue(digits))
  }

  /** The three bytes of a 24-bit value, as `try_from` shifts and masks them out. */
  function Channels(hex: nat): HexColor {
    HexColor((hex / 0x1_0000) % 0x100, (hex / 0x100) % 0x100, hex % 0x100)
  }

  /**
   * `HexColor::try_from` as written: a byte length of 7, a leading `#`, and
   * whatever `u32::from_str_radix` accepts after it, including a `+` sign.
   */
  function HexColorTryFromAsWritten(value: string): Option<HexColor> {
    if Utf8Len(value) != 7 || |value| == 0 || value[0] != '#' then None
    else match FromStrRadix16(value[1..])
      case None => None
      case Some(hex) => Some(Channels(hex))
  }

  /** `#rrggbb`: a `#` and exactly six hexadecimal digits. */
  predicate IsHexTriplet(value: string) {
    |value| == 7 && value[0] == '#' && IsHexDigits(value[1..])
  }

  /** `HexColor::try_from` as intended: only `#rrggbb` is a colour. */
  function HexColorTryFrom(value: string): (r: Option<HexColor>)
    ensures r.Some? <==> IsHexTriplet(value)
  {
    if IsHexTriplet(value) then Some(Channels(HexValue(value[1..]))) else None
  }

  /** The lower-case digit of a value below 16. */
  function LowerHexDigit(d: nat): char
    requires d < 16
  {
    "0123456789abcdef"[d]
  }

  /** `#rrggbb` in lower case. */
  function FormatHex(c: HexColor): string {
    ['#', LowerHexDigit(c.r / 16), LowerHexDigit(c.r % 16),
          LowerHexDigit(c.g / 16), LowerHexDigit(c.g % 16),
          LowerHexDigit(c.b / 16), LowerHexDigit(c.b % 16)]
  }

  lemma LowerHexDigitValue(d: nat)
    requires d < 16
    ensures HexDigit(LowerHexDigit(d)) == Some(d)
  {
  }

  /** Six hex digits hold the three channels, most significant first. */
  lemma HexValueSix(s: string)
    requires |s| == 6 && IsHexDigits(s)
    ensures HexValue(s) == (HexDigit(s[0]).value * 16 + HexDigit(s[1]).value) * 0x1_0000
                         + (HexDigit(s[2]).value * 16 + HexDigit(s[3]).value) * 0x100
                         + (HexDigit(s[4]).value * 16 + HexDigit(s[5]).value)
  {
    HexValueStep(s, 0); HexValueStep(s, 1); HexValueStep(s, 2);
    HexValueStep(s, 3); HexValueStep(s, 4); HexValueStep(s, 5);
    assert s[..6] == s;
  }

  /** One more digit multiplies the value so far by 16 and adds the digit. */
  lemma HexValueStep(s: string, k: nat)
    requires k < |s| && IsHexDigits(s)
    ensures HexValue(s[..k + 1]) == HexValue(s[..k]) * 16 + HexDigit(s[k]).value
  {
    assert s[..k + 1][..k] == s[..k];
  }

  lemma ChannelsOf(r: Byte, g: Byte, b: Byte)
    ensures Channels(r * 0x1_0000 + g * 0x100 + b) == HexColor(r, g, b)
  {
    var v := r * 0x1_0000 + g * 0x100 + b;
    var rg := r * 0x100 + g;
    assert v == rg * 0x100 + b;
    assert v / 0x100 == rg && v % 0x100 == b;
    assert rg % 0x100 == g;
    assert v / 0x1_0000 == r;
  }

  /** Formatting a colour as `#rrggbb` and parsing it back gives the colour. */
  lemma HexRoundTrip(c: HexColor)
    ensures HexColorTryFrom(FormatHex(c)) == Some(c)
  {
    var s := FormatHex(c);
    FormattedValue(c);
    PackedChannels(c);
    TripletValue(s);
  }

  /** A `#rrggbb` string parses to the channels of its six digits. */
  lemma TripletValue(s: string)
    requires IsHexTriplet(s)
    ensures HexColorTryFrom(s) == Some(Channels(HexValue(s[1..])))
  {
  }

  /** The 24-bit value `0xrrggbb` of a colour. */
  function Packed(c: HexColor): nat {
    c.r * 0x1_0000 + c.g * 0x100 + c.b
  }

  /** Packing the three channels into 24 bits and masking them out again gives the colour back. */
  lemma PackedChannels(c: HexColor)
    ensures Channels(Packed(c)) == c
  {
    ChannelsOf(c.r, c.g, c.b);
  }

  /** The six digits `FormatHex` writes form a triplet whose value packs the three channels. */
  lemma FormattedValue(c: HexColor)
    ensures IsHexTriplet(FormatHex(c))
    ensures HexValue(FormatHex(c)[1..]) == Packed(c)
  {
    var s := FormatHex(c);
    var digits := s[1..];
    FormatHexDigits(c);
    HexValueSix(digits);
    assert digits[0] == s[1] && digits[1] == s[2] && digits[2] == s[3];
    assert digits[3] == s[4] && digits[4] == s[5] && digits[5] == s[6];
  }

  /** `FormatHex` writes `#` and two digits per channel, high digit first. */
  lemma FormatHexDigits(c: HexColor)
    ensures IsHexTriplet(FormatHex(c))
    ensures HexDigit(FormatHex(c)[1]).value * 16 + HexDigit(FormatHex(c)[2]).value == c.r
    ensures HexDigit(FormatHex(c)[3]).value * 16 + HexDigit(FormatHex(c)[4]).value == c.g
    ensures HexDigit(FormatHex(c)[5]).value * 16 + HexDigit(FormatHex(c)[6]).value == c.b
  {
    var s := FormatHex(c);
    LowerHexDigitValue(c.r / 16); LowerHexDigitValue(c.r % 16);
    LowerHexDigitValue(c.g / 16); LowerHexDigitValue(c.g % 16);
    LowerHexDigitValue(c.b / 16); LowerHexDigitValue(c.b % 16);
    assert forall i :: 1 <= i < 7 ==> HexDigit(s[i]).Some?;
    assert forall i :: 0 <= i < 6 ==> s[1..][i] == s[i + 1];
  }

  /** The example of the configuration tests: `#12ABef` is (0x12, 0xab, 0xef). */
  lemma HexMixedCase()
    ensures HexColorTryFrom("#12ABef") == Some(HexColor(0x12, 0xab, 0xef))
  {
    var digits := "#12ABef"[1..];
    assert digits == "12ABef";
    HexValueSix(digits);
    ChannelsOf(0x12, 0xab, 0xef);
  }

  /** A digit string without a `+` sign is read by `from_str_radix` as its hex value. */
  lemma FromStrRadixUnsigned(s: string)
    requires |s| > 0 && s[0] != '+'
    ensures FromStrRadix16(s).Some? ==> IsHexDigits(s) && FromStrRadix16(s) == Some(HexValue(s))
  {
  }

  /**
   * The two readings agree on every string whose second character is not
   * `+`: the sign is the only thing the code as written lets through.
   */
  lemma {:induction false} HexAsWrittenAgrees(value: string)
    requires |value| < 2 || value[1] != '+'
    ensures HexColorTryFromAsWritten(value) == HexColorTryFrom(value)
  {
    if |value| > 0 && value[0] == '#' && Utf8Len(value) == 7 {
      var rest := value[1..];
      assert Utf8Len(value) == Utf8Width(value[0]) + Utf8Len(rest);
      if rest != [] {
        FromStrRadixUnsigned(rest);
        if FromStrRadix16(rest).Some? {
          AsciiDigits(rest);
          assert |rest| == 6;
        } else if IsHexTriplet(value) {
          Pow16Six();
          assert HexValue(rest) < 0x1_0000_0000;
          assert false;
        }
      }
    }
  }

  lemma Pow16Six()
    ensures Pow16(6) == 0x100_0000
  {
    assert Pow16(1) == 16;
    assert Pow16(3) == 0x1000;
    assert Pow16(5) == 0x10_0000;
  }

  lemma AsciiDigits(s: string)
    requires IsHexDigits(s)
    ensures Utf8Len(s) == |s|
  {
    forall i | 0 <= i < |s| ensures s[i] as int < 0x80 {
      assert HexDigit(s[i]).Some?;
    }
  }

  /** The input that shows the difference: `#+12345` is accepted as written. */
  lemma HexPlusSignAccepted()
    ensures HexColorTryFromAsWritten("#+12345") == Some(HexColor(0x01, 0x23, 0x45))
    ensures HexColorTryFrom("#+12345") == None
  {
    var value := "#+12345";
    assert value[1..] == "+12345";
    PlusSignedDigits();
    assert Utf8Len(value) == 7;
    assert HexDigit(value[1]).None?;
  }

  /** `from_str_radix` reads `+12345` as 0x12345. */
  lemma PlusSignedDigits()
    ensures FromStrRadix16("+12345") == Some(0x12345)
  {
    var digits := "+12345"[1..];
    assert digits == "12345";
    HexValueStep(digits, 0); HexValueStep(digits, 1); HexValueStep(digits, 2);
    HexValueStep(digits, 3); HexValueStep(digits, 4);
    assert digits[..0] == [] && digits[..5] == digits;
  }
}
