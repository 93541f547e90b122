/**
 * The integer layout of `generate_qr` (lines 89-115): the logo box inside the
 * rendered QR image, the framed background, where the QR image goes on it, and
 * where the label goes. The QR image size and the label's text box come from
 * the imaging libraries and are parameters here. Python's `//` is floor
 * division; for the positive divisors used here Dafny's `/` is the same.
 */
module Geometry {
  import opened Wrappers

  datatype Size = Size(width: nat, height: nat)

  /** An axis-aligned box on some canvas: origin at its top-left corner, `y` growing downwards. */
  datatype Box = Box(left: int, top: int, width: nat, height: nat) {
    function Right(): int { left + width }
    function Bottom(): int { top + height }

    /** This box lies entirely inside `outer`. */
    predicate Within(outer: Box) {
      outer.left <= left && Right() <= outer.Right() && outer.top <= top && Bottom() <= outer.Bottom()
    }
  }

  /** The whole of a canvas of the given size. */
  function Canvas(s: Size): Box {
    Box(0, 0, s.width, s.height)
  }

  const LogoDivisor: nat := 5        // logo side is a fifth of the QR image side
  const FrameExtraWidth: nat := 40   // background is 40 px wider than the QR image
  const FrameExtraHeight: nat := 100 // and 100 px taller
  const QrTop: nat := 20             // QR image is pasted 20 px below the top
  const LabelOffset: nat := 40       // label top is 40 px below the QR image's height

  /**
   * `(outer - inner) // 2`, the offset that centres a length `inner` in a length
   * `outer`. When it fits, it lies inside, and its two margins differ by at most 1,
   * the far margin being the larger.
   */
  function CenterOffset(outer: int, inner: int): (off: int)
    ensures inner <= outer ==> 0 <= off && off + inner <= outer
    ensures 0 <= (outer - off - inner) - off <= 1
    ensures inner > outer ==> off < 0
  {
    (outer - inner) / 2
  }

  /** `(img.size[0] // 5, img.size[1] // 5)`: the size the logo is resized to. */
  function LogoSize(qr: Size): (s: Size)
    ensures s.width <= qr.width && s.height <= qr.height
    ensures LogoDivisor * s.width <= qr.width < LogoDivisor * (s.width + 1)
    ensures LogoDivisor * s.height <= qr.height < LogoDivisor * (s.height + 1)
  {
    Size(qr.width / LogoDivisor, qr.height / LogoDivisor)
  }

  /** The logo's box in QR-image coordinates: `LogoSize` placed at the centring offsets. */
  function LogoBox(qr: Size): (b: Box)
    ensures b.width == LogoSize(qr).width && b.height == LogoSize(qr).height
    ensures b.Within(Canvas(qr))
    ensures 0 <= (qr.width - b.Right()) - b.left <= 1
    ensures 0 <= (qr.height - b.Bottom()) - b.top <= 1
  {
    var s := LogoSize(qr);
    Box(CenterOffset(qr.width, s.width), CenterOffset(qr.height, s.height), s.width, s.height)
  }

  /** `(img.size[0] + 40, img.size[1] + 100)`: the framed background. */
  function BackgroundSize(qr: Size): (s: Size)
    ensures s.width > qr.width && s.height > qr.height
  {
    Size(qr.width + FrameExtraWidth, qr.height + FrameExtraHeight)
  }

  /**
   * The QR image's box on the background, at `((W + 40 - W) // 2, 20)`. It lies
   * inside the background with margins of 20 px left, right and top and 80 px below.
   */
  function QrBox(qr: Size): (b: Box)
    ensures b.width == qr.width && b.height == qr.height
    ensures b.Within(Canvas(BackgroundSize(qr)))
    ensures b.left == 20 && BackgroundSize(qr).width - b.Right() == 20
    ensures b.top == 20 && BackgroundSize(qr).height - b.Bottom() == 80
  {
    var bg := BackgroundSize(qr);
    Box(CenterOffset(bg.width, qr.width), QrTop, qr.width, qr.height)
  }

  /**
   * The label's ink on the background. `bbox` is `draw.textbbox((0, 0), label)`:
   * the ink box relative to the anchor point, so `text_width` and `text_height`
   * are its width and height. The text is anchored at `text_position`,
   * `((W + 40 - text_width) // 2, H + 40)`, and `draw.text` puts the ink at that
   * point plus `(bbox[0], bbox[1])`. The anchored measured box is horizontally
   * inside the background, with margins differing by at most 1, exactly when it
   * is no wider; a wider one starts left of the canvas. The ink fits vertically
   * exactly when `bbox[3] <= 60`, and starts below the QR image exactly when
   * `bbox[1] >= -20`.
   */
  function LabelBox(qr: Size, bbox: Box): (b: Box)
    ensures b.width == bbox.width && b.height == bbox.height
    ensures b.top - bbox.top == QrBox(qr).Bottom() + 20
    ensures bbox.width <= BackgroundSize(qr).width ==>
              var x := b.left - bbox.left;
              0 <= x && x + bbox.width <= BackgroundSize(qr).width
              && 0 <= (BackgroundSize(qr).width - (x + bbox.width)) - x <= 1
    ensures bbox.width > BackgroundSize(qr).width ==> b.left - bbox.left < 0
    ensures b.Bottom() <= BackgroundSize(qr).height <==> bbox.Bottom() <= 60
    ensures b.top >= QrBox(qr).Bottom() <==> bbox.top >= -20
  {
    var bg := BackgroundSize(qr);
    Translate(bbox, CenterOffset(bg.width, bbox.width), qr.height + LabelOffset)
  }

  /** Moves a box by `(dx, dy)`: what pasting an image at an offset does to everything drawn on it. */
  function Translate(b: Box, dx: int, dy: int): (t: Box)
    ensures t.width == b.width && t.height == b.height
    ensures t.left - b.left == dx && t.top - b.top == dy
  {
    Box(b.left + dx, b.top + dy, b.width, b.height)
  }

  /** Where everything ends up on the saved image. */
  datatype Layout = Layout(canvas: Size, qr: Box, logo: Option<Box>, caption: Option<Box>)

  /**
   * The composition of lines 87-116, in background coordinates: the logo, when
   * there is one, is drawn on the QR image, which is then pasted at `QrBox`; the
   * label, when there is one, is drawn at `LabelBox` for its text box `bbox`.
   */
  function Compose(qr: Size, withLogo: bool, withLabel: bool, bbox: Box): (l: Layout)
    ensures l.canvas == BackgroundSize(qr)
    ensures l.qr == QrBox(qr) && l.qr.Within(Canvas(l.canvas))
    ensures l.logo.Some? <==> withLogo
    ensures l.logo.Some? ==> l.logo.value.Within(l.qr)
    ensures l.caption.Some? <==> withLabel
    ensures l.caption.Some? ==> l.caption.value == LabelBox(qr, bbox)
    ensures l.caption.Some? ==> (l.caption.value.top >= l.qr.Bottom() <==> bbox.top >= -20)
  {
    var q := QrBox(qr);
    Layout(BackgroundSize(qr), q,
           if withLogo then Some(Translate(LogoBox(qr), q.left, q.top)) else None,
           if withLabel then Some(LabelBox(qr, bbox)) else None)
  }

  /**
   * The logo sits in the middle of the framed image: its centre is within half a
   * pixel of the QR image's centre in each direction (twice the coordinates, to
   * stay in integers).
   */
  lemma LogoCentredOnQr(qr: Size)
    ensures var l := Compose(qr, true, false, Box(0, 0, 0, 0)).logo.value;
            var q := QrBox(qr);
            && 0 <= (q.left + q.Right()) - (l.left + l.Right()) <= 1
            && 0 <= (q.top + q.Bottom()) - (l.top + l.Bottom()) <= 1
  {
  }

  /**
   * When the label is no wider than the background, its ink's centre is within
   * half a pixel of the background's vertical centre line shifted by `bbox[0]`,
   * the ink's own offset from the anchor point.
   */
  lemma LabelCentredOnCanvas(qr: Size, bbox: Box)
    requires bbox.width <= BackgroundSize(qr).width
    ensures var b := LabelBox(qr, bbox);
            0 <= BackgroundSize(qr).width - (b.left + b.Right() - 2 * bbox.left) <= 1
  {
  }
}
