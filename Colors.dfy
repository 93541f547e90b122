/**
 * Colour conversion of the request handler: each form colour is cut into the
 * slices `[1:3]`, `[3:5]` and `[5:7]`, and each slice is read with `int(_, 16)`.
 * The character at index 0 is never looked at and characters from index 7 on
 * are ignored.
 */
module Colors {
  import opened Wrappers
  import opened PyText

  datatype Rgb = Rgb(red: int, green: int, blue: int)

  /** A colour whose three channels fit in a byte. */
  predicate IsByteColor(c: Rgb) {
    0 <= c.red <= 255 && 0 <= c.green <= 255 && 0 <= c.blue <= 255
  }

  /** The `#RRGGBB` notation the form documents: `#` and six hex digits, nothing more. */
  predicate IsHexColor(s: string) {
    |s| == 7 && s[0] == '#' && AllHexDigits(s[1..])
  }

  function HexPair(hi: char, lo: char): (v: nat)
    requires IsHexDigit(hi) && IsHexDigit(lo)
    ensures v <= 255
  {
    16 * HexDigitValue(hi) + HexDigitValue(lo)
  }

  /** `int(s[i:i+2], 16)`, one channel of the conversion (see `ReadHexSliceIsIntBase16`). */
  function Channel(s: string, i: nat): (r: Option<int>)
    ensures r.Some? ==> -15 <= r.value <= 255
    ensures |s| <= i ==> r == None
  {
    ReadHexSlice(Slice(s, i, i + 2))
  }

  /**
   * `tuple(int(s[i:i+2], 16) for i in (1, 3, 5))`; `None` where one of the three
   * reads raises `ValueError`.
   */
  function ParseColor(s: string): (r: Option<Rgb>)
    ensures r.Some? ==> -15 <= r.value.red <= 255 && -15 <= r.value.green <= 255 && -15 <= r.value.blue <= 255
  {
    var red, green, blue := Channel(s, 1), Channel(s, 3), Channel(s, 5);
    if red.Some? && green.Some? && blue.Some? then Some(Rgb(red.value, green.value, blue.value)) else None
  }

  /** A channel whose two characters are hex digits reads as their pair value. */
  lemma ChannelHexPair(s: string, i: nat)
    requires i + 1 < |s| && IsHexDigit(s[i]) && IsHexDigit(s[i + 1])
    ensures Channel(s, i) == Some(HexPair(s[i], s[i + 1]))
  {
    assert Slice(s, i, i + 2) == [s[i], s[i + 1]];
  }

  /** A channel that is cut to one hex digit reads as that digit. */
  lemma ChannelOneDigit(s: string, i: nat)
    requires i + 1 == |s| && IsHexDigit(s[i])
    ensures Channel(s, i) == Some(HexDigitValue(s[i]))
  {
    assert Slice(s, i, i + 2) == [s[i]];
  }

  /** The conversion succeeds with the three channels it reads. */
  lemma ParseOfChannels(s: string, red: int, green: int, blue: int)
    requires Channel(s, 1) == Some(red) && Channel(s, 3) == Some(green) && Channel(s, 5) == Some(blue)
    ensures ParseColor(s) == Some(Rgb(red, green, blue))
  {
  }

  /** A string in `#RRGGBB` notation parses to the values of its three digit pairs, each a byte. */
  lemma ParseHexColor(s: string)
    requires IsHexColor(s)
    ensures ParseColor(s) == Some(Rgb(HexPair(s[1], s[2]), HexPair(s[3], s[4]), HexPair(s[5], s[6])))
    ensures IsByteColor(ParseColor(s).value)
  {
    assert forall k :: 1 <= k < 7 ==> s[1..][k - 1] == s[k];
    ChannelHexPair(s, 1);
    ChannelHexPair(s, 3);
    ChannelHexPair(s, 5);
  }

  /** A slice holding neither whitespace nor a sign reads exactly when both its characters are hex digits. */
  lemma ChannelPlain(s: string, i: nat)
    requires i + 1 < |s|
    requires !IsIntSpace(s[i]) && !IsIntSpace(s[i + 1]) && s[i] != '+' && s[i] != '-'
    ensures Channel(s, i).Some? <==> IsHexDigit(s[i]) && IsHexDigit(s[i + 1])
  {
    assert Slice(s, i, i + 2) == [s[i], s[i + 1]];
  }

  /**
   * Without whitespace or signs in indices 1..6, a string of seven or more
   * characters converts exactly when those six are hex digits.
   */
  lemma ParsePlainIff(s: string)
    requires |s| >= 7
    requires forall k :: 1 <= k < 7 ==> !IsIntSpace(s[k]) && s[k] != '+' && s[k] != '-'
    ensures ParseColor(s).Some? <==> forall k :: 1 <= k < 7 ==> IsHexDigit(s[k])
  {
    ChannelPlain(s, 1);
    ChannelPlain(s, 3);
    ChannelPlain(s, 5);
  }

  /** The conversion never inspects index 0: any leading character gives the same outcome. */
  lemma ParseIgnoresFirstChar(s: string, c: char)
    requires s != ""
    ensures ParseColor([c] + s[1..]) == ParseColor(s)
  {
    var s' := [c] + s[1..];
    assert forall k :: 1 <= k < |s| ==> s'[k] == s[k];
    assert Slice(s', 1, 3) == Slice(s, 1, 3);
    assert Slice(s', 3, 5) == Slice(s, 3, 5);
    assert Slice(s', 5, 7) == Slice(s, 5, 7);
  }

  /** The conversion never inspects index 7 or beyond. */
  lemma ParseIgnoresTail(s: string)
    requires |s| >= 7
    ensures ParseColor(s) == ParseColor(s[..7])
  {
    assert Slice(s[..7], 1, 3) == Slice(s, 1, 3);
    assert Slice(s[..7], 3, 5) == Slice(s, 3, 5);
    assert Slice(s[..7], 5, 7) == Slice(s, 5, 7);
  }

  /** A string of five characters or fewer fails: its last slice `[5:7]` is empty. */
  lemma ParseShortFails(s: string)
    requires |s| <= 5
    ensures ParseColor(s) == None
  {
  }

  /** A six-character string succeeds when indices 1..5 are hex digits: its last channel is the single digit at index 5. */
  lemma ParseSixChars(s: string)
    requires |s| == 6 && AllHexDigits(s[1..])
    ensures ParseColor(s) == Some(Rgb(HexPair(s[1], s[2]), HexPair(s[3], s[4]), HexDigitValue(s[5])))
  {
    assert forall k :: 1 <= k < 6 ==> s[1..][k - 1] == s[k];
    ChannelHexPair(s, 1);
    ChannelHexPair(s, 3);
    ChannelOneDigit(s, 5);
  }

  /** A channel is negative only when its slice starts with a minus sign. */
  lemma ParseNegativeNeedsSign(s: string)
    requires ParseColor(s).Some?
    ensures ParseColor(s).value.red < 0 ==> s[1] == '-'
    ensures ParseColor(s).value.green < 0 ==> s[3] == '-'
    ensures ParseColor(s).value.blue < 0 ==> s[5] == '-'
  {
    if Channel(s, 1).value < 0 { NegativeChannel(s, 1); }
    if Channel(s, 3).value < 0 { NegativeChannel(s, 3); }
    if Channel(s, 5).value < 0 { NegativeChannel(s, 5); }
  }

  /** A negative channel is a `-` followed by one hex digit. */
  lemma NegativeChannel(s: string, i: nat)
    requires Channel(s, i).Some? && Channel(s, i).value < 0
    ensures i + 1 < |s| && s[i] == '-' && IsHexDigit(s[i + 1])
  {
    var t := Slice(s, i, i + 2);
    assert |t| == 2;
  }

  // Formatting, the inverse direction.

  /** The upper-case hex digit of `v < 16`. */
  function HexDigit(v: nat): (c: char)
    requires v < 16
    ensures IsHexDigit(c) && HexDigitValue(c) == v
  {
    if v < 10 then ('0' as int + v) as char else ('A' as int + v - 10) as char
  }

  /** `#RRGGBB` for a byte colour, upper case. */
  function FormatColor(c: Rgb): (s: string)
    requires IsByteColor(c)
    ensures IsHexColor(s)
  {
    var s := ['#', HexDigit(c.red / 16), HexDigit(c.red % 16), HexDigit(c.green / 16),
              HexDigit(c.green % 16), HexDigit(c.blue / 16), HexDigit(c.blue % 16)];
    assert forall i :: 0 <= i < 6 ==> s[1..][i] == s[i + 1];
    s
  }

  /** The two digits `FormatColor` writes for a byte read back as that byte. */
  lemma HexPairOfDigits(v: nat)
    requires v <= 255
    ensures HexPair(HexDigit(v / 16), HexDigit(v % 16)) == v
  {
  }

  /** Formatting a byte colour and converting it back gives the colour. */
  lemma FormatParseRoundTrip(c: Rgb)
    requires IsByteColor(c)
    ensures ParseColor(FormatColor(c)) == Some(c)
  {
    var s := FormatColor(c);
    ParseHexColor(s);
    HexPairOfDigits(c.red);
    HexPairOfDigits(c.green);
    HexPairOfDigits(c.blue);
  }

  /** A sign followed by one hex digit reads as that digit, negated for `-`. */
  lemma ChannelSigned(s: string, i: nat)
    requires i + 1 < |s| && (s[i] == '+' || s[i] == '-') && IsHexDigit(s[i + 1])
    ensures Channel(s, i) == Some(if s[i] == '-' then -(HexDigitValue(s[i + 1]) as int) else HexDigitValue(s[i + 1]))
  {
    assert Slice(s, i, i + 2) == [s[i], s[i + 1]];
  }

  /** A space followed by one hex digit reads as that digit. */
  lemma ChannelSpacePadded(s: string, i: nat)
    requires i + 1 < |s| && s[i] == ' ' && IsHexDigit(s[i + 1])
    ensures Channel(s, i) == Some(HexDigitValue(s[i + 1]))
  {
    assert Slice(s, i, i + 2) == [s[i], s[i + 1]];
  }

  /** The documented example: `#FF00AA` is (255, 0, 170). */
  lemma ParseDocumentedExample()
    ensures ParseColor("#FF00AA") == Some(Rgb(255, 0, 170))
  {
    ChannelHexPair("#FF00AA", 1);
    ChannelHexPair("#FF00AA", 3);
    ChannelHexPair("#FF00AA", 5);
    ParseOfChannels("#FF00AA", 255, 0, 170);
  }

  /** A slice may be a sign and one digit: `#-f0000` converts, with a negative red channel. */
  lemma ParseAcceptsSign()
    ensures ParseColor("#-f0000") == Some(Rgb(-15, 0, 0))
  {
    ChannelSigned("#-f0000", 1);
    ChannelHexPair("#-f0000", 3);
    ChannelHexPair("#-f0000", 5);
    ParseOfChannels("#-f0000", -15, 0, 0);
  }

  /** A slice may be a space and one digit: `# f+a 1` converts to (15, 10, 1). */
  lemma ParseAcceptsPadding()
    ensures ParseColor("# f+a 1") == Some(Rgb(15, 10, 1))
  {
    ChannelSpacePadded("# f+a 1", 1);
    ChannelSigned("# f+a 1", 3);
    ChannelSpacePadded("# f+a 1", 5);
    ParseOfChannels("# f+a 1", 15, 10, 1);
  }
}
