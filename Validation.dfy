/**
 * The checks `generate_qr` makes on the submitted form before any image work,
 * in the order it makes them: the stripped text must be non-empty; a logo whose
 * filename is non-empty must end in `.png`, `.jpg` or `.jpeg` (case-sensitive);
 * and the four colours must convert. Each failure answers HTTP 400.
 */
module Validation {
  import opened Wrappers
  import opened PyText
  import opened Colors

  /** An uploaded file as the handler sees it; only the filename matters before saving. */
  datatype Upload = Upload(filename: string)

  /** The multipart form: `None` for a field that was not submitted. */
  datatype Form = Form(
    text: Option<string>,
    frontColor: Option<string>,
    backColor: Option<string>,
    borderColor: Option<string>,
    labelText: Option<string>,
    labelColor: Option<string>,
    logo: Option<Upload>)

  const DefaultFrontColor: string := "#000000"
  const DefaultBackColor: string := "#FFFFFF"
  const DefaultBorderColor: string := "#FFFFFF"
  const DefaultLabelColor: string := "#000000"
  const LogoSuffixes: seq<string> := [".png", ".jpg", ".jpeg"]

  datatype Rejection = MissingText | BadLogoFormat | BadColors

  /** The `error` message of the 400 response for each rejection. */
  function Message(r: Rejection): string {
    match r
    case MissingText => "O texto do QR Code é obrigatório"
    case BadLogoFormat => "Formato de logo inválido. Apenas PNG, JPG ou JPEG são aceitos"
    case BadColors => "Cores inválidas. Use o formato hexadecimal (ex: #FFFFFF)"
  }

  /** A request that passed every check. `logo` is the upload to save, if any. */
  datatype Request = Request(
    text: string,
    front: Rgb,
    back: Rgb,
    border: Rgb,
    labelText: string,
    labelColor: Rgb,
    logo: Option<Upload>)

  /** `request.form.get("text", "").strip()` */
  function Text(f: Form): string {
    Strip(f.text.GetOr(""))
  }

  /** `request.form.get("label_text", "").strip()` */
  function LabelText(f: Form): string {
    Strip(f.labelText.GetOr(""))
  }

  /** `if logo`: an upload with an empty filename is falsy, the same as no upload. */
  predicate LogoGiven(f: Form) {
    f.logo.Some? && f.logo.value.filename != ""
  }

  /** `filename.endswith(('.png', '.jpg', '.jpeg'))` */
  predicate AcceptedLogoName(name: string) {
    EndsWithAny(name, LogoSuffixes)
  }

  /** The four colour strings in the order they are converted, defaults filled in. */
  function ColorFields(f: Form): (cs: seq<string>)
    ensures |cs| == 4
  {
    [f.frontColor.GetOr(DefaultFrontColor), f.backColor.GetOr(DefaultBackColor),
     f.borderColor.GetOr(DefaultBorderColor), f.labelColor.GetOr(DefaultLabelColor)]
  }

  /** Each of the four colour strings converts. */
  predicate ColorsConvert(f: Form) {
    var cs := ColorFields(f);
    ParseColor(cs[0]).Some? && ParseColor(cs[1]).Some? && ParseColor(cs[2]).Some? && ParseColor(cs[3]).Some?
  }

  /**
   * The four conversions of lines 59-62: all four channels triples, in form order,
   * or `None` as soon as one of them raises `ValueError`.
   */
  function ConvertColors(cs: seq<string>): (r: Option<seq<Rgb>>)
    requires |cs| == 4
    ensures r.Some? <==> ParseColor(cs[0]).Some? && ParseColor(cs[1]).Some? && ParseColor(cs[2]).Some? && ParseColor(cs[3]).Some?
    ensures r.Some? ==> |r.value| == 4 && ParseColor(cs[0]) == Some(r.value[0]) && ParseColor(cs[1]) == Some(r.value[1]) && ParseColor(cs[2]) == Some(r.value[2]) && ParseColor(cs[3]) == Some(r.value[3])
  {
    var front, back, border, caption := ParseColor(cs[0]), ParseColor(cs[1]), ParseColor(cs[2]), ParseColor(cs[3]);
    if front.Some? && back.Some? && border.Some? && caption.Some? then
      Some([front.value, back.value, border.value, caption.value])
    else
      None
  }

  /** The decision of `generate_qr` lines 37-64: the validated request, or why it is refused. */
  function Validate(f: Form): Result<Request, Rejection> {
    var text := Text(f);
    if text == "" then
      Failure(MissingText)
    else if LogoGiven(f) && !AcceptedLogoName(f.logo.value.filename) then
      Failure(BadLogoFormat)
    else
      match ConvertColors(ColorFields(f))
      case Some(cs) =>
        Success(Request(text, cs[0], cs[1], cs[2], LabelText(f), cs[3], if LogoGiven(f) then f.logo else None))
      case None =>
        Failure(BadColors)
  }

  /** The text is refused exactly when it is missing, empty or all whitespace; nothing else is looked at first. */
  lemma ValidateMissingText(f: Form)
    ensures Validate(f) == Failure(MissingText) <==>
              forall i :: 0 <= i < |f.text.GetOr("")| ==> IsSpace(f.text.GetOr("")[i])
  {
  }

  /** The logo is refused exactly when the text is fine and a non-empty filename lacks the three suffixes. */
  lemma ValidateBadLogo(f: Form)
    ensures Validate(f) == Failure(BadLogoFormat) <==>
              Text(f) != "" && LogoGiven(f) && !AcceptedLogoName(f.logo.value.filename)
  {
  }

  /** The colours are refused exactly when text and logo pass and one of the four does not convert. */
  lemma ValidateBadColors(f: Form)
    ensures Validate(f) == Failure(BadColors) <==>
              && Text(f) != ""
              && (LogoGiven(f) ==> AcceptedLogoName(f.logo.value.filename))
              && !ColorsConvert(f)
  {
  }

  /**
   * An accepted request carries the stripped text, which is non-empty and has no
   * whitespace at either end, the four converted colours, the stripped label, and
   * the logo exactly when one with a non-empty, accepted filename was uploaded.
   */
  lemma ValidateAccepts(f: Form)
    requires Validate(f).Success?
    ensures var r := Validate(f).value;
            && r.text == Text(f) && r.text != ""
            && !IsSpace(r.text[0]) && !IsSpace(r.text[|r.text| - 1])
            && Some(r.front) == ParseColor(ColorFields(f)[0])
            && Some(r.back) == ParseColor(ColorFields(f)[1])
            && Some(r.border) == ParseColor(ColorFields(f)[2])
            && Some(r.labelColor) == ParseColor(ColorFields(f)[3])
            && r.labelText == LabelText(f)
            && (r.logo.Some? <==> LogoGiven(f))
            && (r.logo.Some? ==> r.logo == f.logo && AcceptedLogoName(r.logo.value.filename))
  {
    var cs := ColorFields(f);
    assert Text(f) != "" && ConvertColors(cs).Some?;
    var vs := ConvertColors(cs).value;
    assert Validate(f).value == Request(Text(f), vs[0], vs[1], vs[2], LabelText(f), vs[3], if LogoGiven(f) then f.logo else None);
  }

  /** Every request is either accepted or refused for exactly one of the three reasons. */
  lemma ValidateTotal(f: Form)
    ensures Validate(f).Success? <==>
              && Text(f) != ""
              && (LogoGiven(f) ==> AcceptedLogoName(f.logo.value.filename))
              && ColorsConvert(f)
  {
    ValidateBadColors(f);
  }

  /** The suffix test is the disjunction of the three `endswith` tests. */
  lemma AcceptedLogoNameCases(name: string)
    ensures AcceptedLogoName(name) <==> EndsWith(name, ".png") || EndsWith(name, ".jpg") || EndsWith(name, ".jpeg")
  {
    if EndsWith(name, ".png") {
      assert EndsWith(name, LogoSuffixes[0]);
    } else if EndsWith(name, ".jpg") {
      assert EndsWith(name, LogoSuffixes[1]);
    } else if EndsWith(name, ".jpeg") {
      assert EndsWith(name, LogoSuffixes[2]);
    }
  }

  /** The test is case-sensitive: a name ending in an upper-case letter, such as `logo.PNG`, is refused. */
  lemma UpperCaseExtensionRefused(name: string)
    requires name != "" && 'A' <= name[|name| - 1] <= 'Z'
    ensures !AcceptedLogoName(name)
  {
    forall k | 0 <= k < |LogoSuffixes| ensures !EndsWith(name, LogoSuffixes[k]) {
      var sfx := LogoSuffixes[k];
      assert sfx[|sfx| - 1] == 'g';
      if |sfx| <= |name| {
        assert name[|name| - |sfx|..][|sfx| - 1] == name[|name| - 1];
      }
    }
  }

  /** The default colours convert: black for the modules and the label, white for the background and the frame. */
  lemma DefaultColorsParse()
    ensures ParseColor(DefaultFrontColor) == Some(Rgb(0, 0, 0))
    ensures ParseColor(DefaultLabelColor) == Some(Rgb(0, 0, 0))
    ensures ParseColor(DefaultBackColor) == Some(Rgb(255, 255, 255))
    ensures ParseColor(DefaultBorderColor) == Some(Rgb(255, 255, 255))
  {
    ChannelHexPair(DefaultFrontColor, 1);
    ChannelHexPair(DefaultFrontColor, 3);
    ChannelHexPair(DefaultFrontColor, 5);
    ParseOfChannels(DefaultFrontColor, 0, 0, 0);
    ChannelHexPair(DefaultBackColor, 1);
    ChannelHexPair(DefaultBackColor, 3);
    ChannelHexPair(DefaultBackColor, 5);
    ParseOfChannels(DefaultBackColor, 255, 255, 255);
  }
}
