/**
 * The `/generate` handler (`generate_qr`, lines 31-124) as a sequence of steps
 * over the two folders: clean both, validate the form with early returns, save
 * the logo, lay out the image, save it, and answer with its URL. Image
 * rendering is not modelled; the size of the rendered QR image and the text box
 * of the label are parameters, as are the clock and the two random
 * file ids.
 */
module Handler {
  import opened Wrappers
  import opened PyText
  import opened Colors
  import opened Validation
  import opened Geometry
  import opened Cleanup

  /** The JSON reply: status 200 with the image URL, or status 400 with a message. */
  datatype Response = Generated(imageUrl: string) | BadRequest(message: string)

  /** `f"logo_{uuid.uuid4().hex}.png"` */
  function LogoFileName(id: string): string {
    "logo_" + id + ".png"
  }

  /** `f"qrcode_{uuid.uuid4().hex}.png"` */
  function OutputFileName(id: string): string {
    "qrcode_" + id + ".png"
  }

  /** `url_for('static', filename=f"generated/{output_filename}")` */
  function OutputUrl(id: string): string {
    "/static/generated/" + OutputFileName(id)
  }

  /**
   * Distinct ids give distinct file names and URLs, and a logo file name is never
   * an output file name.
   */
  lemma FileNamesDistinct(a: string, b: string)
    ensures LogoFileName(a) == LogoFileName(b) <==> a == b
    ensures OutputFileName(a) == OutputFileName(b) <==> a == b
    ensures OutputUrl(a) == OutputUrl(b) <==> a == b
    ensures LogoFileName(a) != OutputFileName(b)
  {
    var la, lb := LogoFileName(a), LogoFileName(b);
    assert la[5..|la| - 4] == a && lb[5..|lb| - 4] == b;
    var oa, ob := OutputFileName(a), OutputFileName(b);
    assert oa[7..|oa| - 4] == a && ob[7..|ob| - 4] == b;
    var ua, ub := OutputUrl(a), OutputUrl(b);
    assert ua[18..] == oa && ub[18..] == ob;
    assert la[0] == 'l' && ob[0] == 'q';
  }

  /** The step at line 53 runs: the text is present and an accepted logo was uploaded. */
  predicate LogoSaved(f: Form) {
    Text(f) != "" && LogoGiven(f) && AcceptedLogoName(f.logo.value.filename)
  }

  /**
   * A logo file is left behind by a refused request only when the colours are
   * refused: the logo is saved after the text and logo checks but before the
   * colours are converted.
   */
  lemma SavedLogoOfRefusedRequest(f: Form)
    requires LogoSaved(f) && Validate(f).Failure?
    ensures Validate(f).error == BadColors
  {
  }

  /** A request that is accepted saves its logo exactly when the validated request carries one. */
  lemma SavedLogoOfAcceptedRequest(f: Form)
    requires Validate(f).Success?
    ensures LogoSaved(f) <==> Validate(f).value.logo.Some?
  {
    ValidateAccepts(f);
  }

  /** The layout the saved image follows for an accepted request; the label is drawn only when there is label text. */
  function PlanFor(r: Request, qr: Size, bbox: Box): (l: Layout)
    ensures l.logo.Some? <==> r.logo.Some?
    ensures l.caption.Some? <==> r.labelText != ""
    ensures l.canvas == BackgroundSize(qr)
  {
    Compose(qr, r.logo.Some?, r.labelText != "", bbox)
  }

  /** The application's two folders, `static/uploads` and `static/generated`. */
  class App {
    const uploads: Directory
    const outputs: Directory

    constructor (uploaded: map<string, Entry>, generated: map<string, Entry>)
      ensures uploads.entries == uploaded && outputs.entries == generated
      ensures uploads != outputs && fresh(uploads) && fresh(outputs)
    {
      uploads := new Directory(uploaded);
      outputs := new Directory(generated);
    }

    /**
     * One POST to `/generate` at time `now`. `qr` is the size of the rendered QR image
     * and `bbox` the label's `textbbox` at the origin, both from the imaging
     * libraries; `logoId` and `outputId` are the random hex ids.
     */
    method GenerateQr(f: Form, now: int, logoId: string, outputId: string, qr: Size, bbox: Box)
      returns (response: Response, layout: Option<Layout>)
      requires uploads != outputs
      modifies uploads, outputs
      ensures uploads.entries ==
                var kept := Survivors(old(uploads.entries), now, DefaultMaxAgeHours);
                if LogoSaved(f) then kept[LogoFileName(logoId) := Entry(true, now)] else kept
      ensures Validate(f).Failure? ==>
                && response == BadRequest(Message(Validate(f).error))
                && layout == None
                && outputs.entries == Survivors(old(outputs.entries), now, DefaultMaxAgeHours)
      ensures Validate(f).Success? ==>
                && response == Generated(OutputUrl(outputId))
                && layout == Some(PlanFor(Validate(f).value, qr, bbox))
                && outputs.entries ==
                     Survivors(old(outputs.entries), now, DefaultMaxAgeHours)[OutputFileName(outputId) := Entry(true, now)]
    {
      uploads.CleanupOldFiles(now, DefaultMaxAgeHours);
      outputs.CleanupOldFiles(now, DefaultMaxAgeHours);

      var text := Strip(f.text.GetOr(""));
      if text == "" {
        assert Validate(f) == Failure(MissingText);
        response, layout := BadRequest(Message(MissingText)), None;
        return;
      }

      var frontColor := f.frontColor.GetOr(DefaultFrontColor);
      var backColor := f.backColor.GetOr(DefaultBackColor);
      var borderColor := f.borderColor.GetOr(DefaultBorderColor);
      var labelText := Strip(f.labelText.GetOr(""));
      var labelColor := f.labelColor.GetOr(DefaultLabelColor);

      var hasLogo := false;
      if LogoGiven(f) && AcceptedLogoName(f.logo.value.filename) {
        uploads.Save(LogoFileName(logoId), now);
        hasLogo := true;
      } else if LogoGiven(f) {
        assert Validate(f) == Failure(BadLogoFormat);
        response, layout := BadRequest(Message(BadLogoFormat)), None;
        return;
      }

      var colors := ConvertColors([frontColor, backColor, borderColor, labelColor]);
      if colors.None? {
        ValidateBadColors(f);
        response, layout := BadRequest(Message(BadColors)), None;
        return;
      }

      ValidateTotal(f);
      ValidateAccepts(f);
      var plan := Compose(qr, hasLogo, labelText != "", bbox);
      outputs.Save(OutputFileName(outputId), now);
      response, layout := Generated(OutputUrl(outputId)), Some(plan);
    }
  }
}
