# QR-code generator: request validation, colour conversion, layout and cleanup

This project models the logic of a small Flask application, `app.py`, that turns
a web form into a styled QR-code PNG. It covers the part of the application that
is the program's own code and not a library call:

- **Cleanup** (`Cleanup`): `cleanup_old_files` walks a folder listing and deletes
  every regular file older than a maximum age, 24 hours by default. A folder is
  a `Directory` object holding a map from entry name to `Entry(isFile, mtime)`.
  Its method `CleanupOldFiles` has a loop over the listing. Its postcondition
  equates the final map with the function `Survivors` of the initial map, and
  lemmas prove what `Survivors` keeps.
- **Validation** (`Validation`, with `PyText` and `Colors`): the form is checked
  in the source's order. First the text after `str.strip()` must be non-empty.
  Then a logo with a non-empty filename must end in `.png`, `.jpg` or `.jpeg`.
  Then each of the four colours is converted with
  `tuple(int(c[i:i+2], 16) for i in (1, 3, 5))`. `Validate` maps a `Form` to
  `Success(Request)` or `Failure(Rejection)`, and each rejection comes with the
  source's 400 message.
- **Colour conversion** (`Colors`): modelled on the source's Python semantics.
  Slicing clamps short strings. `int(_, 16)` accepts surrounding whitespace and
  one sign. `PyText.IntBase16` gives CPython's strip/sign/digits reading, and
  `PyText.ReadHexSlice` is a case table proved equal to it for the two-character
  slices the conversion reads.
- **Layout** (`Geometry`): the integer arithmetic that places the logo (a fifth of
  the QR image, centred), the framed background (`W + 40` by `H + 100`), the QR
  image on it (at `(20, 20)`), and the label. The label is anchored at
  `((W + 40 - text_width) // 2, H + 40)`, and its ink is offset from that point by
  the left and top of `textbbox`.
- **Handler** (`Handler`): `App.GenerateQr` runs the steps of `generate_qr` in
  order over the two folders. Its postcondition says what each folder holds
  afterwards, what the reply is, and which layout the saved image follows.

The error message at app.py:64 asks for the hexadecimal format `#FFFFFF`. The
conversion itself accepts any colour string from which it can read three slices
with `int(_, 16)`:

- the character at index 0 is never checked;
- characters from index 7 on are ignored;
- a six-character string such as `#FFFFF` is accepted, with a one-digit blue channel;
- a slice such as `-f` or ` f` is accepted, so a channel can be negative (down to -15).

Nothing in `generate_qr` catches an error from `Image.open` on a corrupt logo or
from `os.remove` during cleanup: both raise out of the handler. See "Left out".

Values supplied from outside are parameters. These are the QR image size, the
label's `textbbox`, the clock (`now`, in microseconds) and the two random ids.

## Model

| member | source | states |
|---|---|---|
| `PyText.Strip` | app.py:37 | `str.strip()`, used for the text here and for the label at line 44: the result is empty exactly when every character satisfies `str.isspace()`, and otherwise it neither starts nor ends with such a character; `TrimPadded` and `StripIdempotent` fix it completely |
| `PyText.Trim` | app.py:37 | `str.strip()`: the result is empty exactly when every character is whitespace, and otherwise it neither starts nor ends with whitespace |
| `PyText.TrimPadded` | app.py:37 | stripping `p + s + q`, where `p` and `q` are whitespace and `s` has no whitespace at either end, gives `s` |
| `PyText.StripIdempotent` | app.py:37 | stripping twice is the same as stripping once |
| `PyText.Slice` | app.py:59 | `s[i:j]` never fails: its length is clamped to the string, and character `k` of it is `s[i + k]` |
| `PyText.HexValue` | app.py:59 | a hexadecimal numeral of `n` digits has a value below `16^n` |
| `PyText.IntBase16` | app.py:59 | `int(t, 16)` for a string of at most two characters and ASCII digits, read as CPython does: strip the whitespace `int` skips, then `SignedHex`; its partner is `ReadHexSliceIsIntBase16` |
| `PyText.SignedHex` | app.py:59 | the numeral after the whitespace is gone: one optional sign, then one or more hex digits, else `ValueError` |
| `PyText.ReadHexSlice` | app.py:59 | `int(t, 16)` on a slice of at most two characters: the value lies in -15..255, and the empty slice raises |
| `PyText.ReadHexSliceIsIntBase16` | app.py:59 | the case table agrees with CPython's reading (strip whitespace, optional sign, hex digits) on every string of at most two characters |
| `Colors.Channel` | app.py:59 | one channel `int(s[i:i+2], 16)` lies in -15..255, and fails when `i` is past the end |
| `Colors.ParseColor` | app.py:59-62 | `tuple(int(c[i:i+2], 16) for i in (1, 3, 5))`: every converted channel lies in -15..255; the lemmas below say when it succeeds and with which values |
| `Colors.ChannelHexPair` | app.py:59 | a slice of two hex digits reads as sixteen times the first digit plus the second |
| `Colors.ParseHexColor` | app.py:59-62 | a `#RRGGBB` string converts to the values of its three digit pairs, each in 0..255 |
| `Colors.ParsePlainIff` | app.py:58-64 | when indices 1..6 hold no whitespace and no sign, the conversion succeeds exactly when all six characters are hex digits |
| `Colors.ParseIgnoresFirstChar` | app.py:59-62 | changing the character at index 0 never changes the outcome |
| `Colors.ParseIgnoresTail` | app.py:59-62 | characters from index 7 on never change the outcome |
| `Colors.ParseShortFails` | app.py:58-64 | every string of length 5 or less is refused, because its slice `[5:7]` is empty |
| `Colors.ParseSixChars` | app.py:59-62 | a six-character string whose indices 1..5 are hex digits is accepted, and its blue channel is the single digit at index 5 |
| `Colors.ParseNegativeNeedsSign` | app.py:59-62 | a channel is negative only when its slice starts with `-` |
| `Colors.NegativeChannel` | app.py:59 | a negative channel is exactly a `-` followed by one hex digit |
| `Colors.ChannelSigned` | app.py:59 | a sign and one digit read as that digit, negated for `-` |
| `Colors.ChannelSpacePadded` | app.py:59 | a space and one digit read as that digit |
| `Colors.FormatParseRoundTrip` | app.py:59-62 | writing a byte colour as `#RRGGBB` and converting it back gives the colour |
| `Colors.ParseDocumentedExample` | app.py:59-62 | `#FF00AA` converts to (255, 0, 170) |
| `Colors.ParseAcceptsSign` | app.py:59-62 | `#-f0000` is accepted, with red channel -15 |
| `Colors.ParseAcceptsPadding` | app.py:59-62 | `# f+a 1` is accepted as (15, 10, 1) |
| `Wrappers.Option.GetOr` | app.py:41 | `request.form.get(key, default)`: the submitted value, or the default when the field is absent; `Validation.DefaultColorsParse` and `Validation.ValidateMissingText` rely on it |
| `Validation.Text` | app.py:37 | `request.form.get("text", "").strip()`; `Validation.ValidateMissingText` and `Validation.ValidateAccepts` state what it yields |
| `Validation.LabelText` | app.py:44 | `request.form.get("label_text", "").strip()`; `Handler.PlanFor` draws the label exactly when it is non-empty |
| `Validation.ColorFields` | app.py:41-45 | the four colour fields with their defaults `#000000`, `#FFFFFF`, `#FFFFFF` and `#000000`, in conversion order; it always holds four strings |
| `Validation.ConvertColors` | app.py:58-64 | the four colours convert exactly when each one does, and then the result lists their triples in form order |
| `Validation.Message` | app.py:38-64 | the `error` text of the 400 reply for each rejection (lines 39, 55 and 64), word for word; `Handler.App.GenerateQr` answers with it |
| `Validation.LogoGiven` | app.py:51-54 | `if logo`: an upload counts only when its filename is non-empty; `ValidateBadLogo` states what follows from it |
| `Validation.AcceptedLogoName` | app.py:51 | `filename.endswith(('.png', '.jpg', '.jpeg'))`; `AcceptedLogoNameCases` spells it out |
| `Validation.Validate` | app.py:37-64 | the ordered checks of the handler; `ValidateMissingText`, `ValidateBadLogo`, `ValidateBadColors`, `ValidateAccepts` and `ValidateTotal` state its outcome in each case |
| `Validation.ValidateMissingText` | app.py:37-39 | the request is refused for its text exactly when the text is missing, empty or all whitespace |
| `Validation.ValidateBadLogo` | app.py:48-55 | the request is refused for its logo exactly when the text passes and a non-empty filename lacks the three suffixes; a missing logo or an empty filename is never an error |
| `Validation.ValidateBadColors` | app.py:58-64 | the request is refused for its colours exactly when text and logo pass and at least one of the four colours fails |
| `Validation.ValidateAccepts` | app.py:37-64 | an accepted request carries the stripped text (non-empty, no whitespace at either end), the four converted colours, the stripped label, and the upload exactly when an accepted non-empty filename was given |
| `Validation.ValidateTotal` | app.py:37-64 | a request is accepted exactly when the text is non-empty, any given logo has an accepted name, and all four colours convert |
| `PyText.EndsWith` | app.py:51 | `s.endswith(suffix)`: the last characters of `s` are `suffix` |
| `PyText.EndsWithAny` | app.py:51 | `s.endswith(suffixes)` for a tuple: one of the suffixes matches |
| `Validation.AcceptedLogoNameCases` | app.py:51 | the suffix test holds exactly when the name ends with `.png`, `.jpg` or `.jpeg` |
| `Validation.UpperCaseExtensionRefused` | app.py:51 | the test is case-sensitive: a name ending in an upper-case letter, such as `logo.PNG`, is refused |
| `Validation.DefaultColorsParse` | app.py:41-45 | the default colours convert to black (modules, label) and white (background, frame) |
| `Geometry.CenterOffset` | app.py:93 | `(outer - inner) // 2` places an inner length inside an outer one when it fits; the far margin exceeds the near one by 0 or 1; it is negative when the inner length does not fit |
| `Geometry.LogoSize` | app.py:89 | each logo side is the floor of a fifth of the QR side |
| `Geometry.LogoBox` | app.py:89-93 | the logo box lies inside the QR image, and its opposite margins differ by at most 1 |
| `Geometry.BackgroundSize` | app.py:97 | the background is larger than the QR image in both directions |
| `Geometry.QrBox` | app.py:97-101 | the QR image lies inside the background with margins of 20 px left, right and top and 80 px at the bottom |
| `Geometry.LabelBox` | app.py:112-116 | the ink is the `textbbox` box moved by `text_position`; `text_position` is 20 px below the QR image; the anchored measured box is horizontally inside the canvas, with margins differing by at most 1, exactly when it is no wider than the canvas, and otherwise starts left of it; the ink fits vertically exactly when `bbox[3] <= 60`, and starts below the QR image exactly when `bbox[1] >= -20` |
| `Geometry.Translate` | app.py:94-116 | pasting at an offset, or drawing text at an anchor, moves a box by that offset and keeps its size |
| `Geometry.Compose` | app.py:87-116 | the QR image is at `QrBox` and lies inside the canvas; the label, when drawn, is at `LabelBox`; the logo (present exactly when requested) lies inside the QR image; the label (present exactly when requested) starts below the QR image exactly when `bbox[1] >= -20` |
| `Geometry.LogoCentredOnQr` | app.py:89-102 | on the saved image the logo's centre is within half a pixel of the QR image's centre in each direction |
| `Geometry.LabelCentredOnCanvas` | app.py:112-116 | for a label no wider than the canvas, the ink's centre is within half a pixel of the canvas centre line shifted by `bbox[0]` |
| `Cleanup.Expired` | app.py:22-24 | an entry is removed when it is a regular file and `now - mtime` exceeds the maximum age |
| `Cleanup.Survivors` | app.py:18-25 | the folder after a pass; `SurvivorsSpec` states what it keeps |
| `Cleanup.SurvivorsSpec` | app.py:18-25 | after cleanup, every regular file older than the maximum age is gone, every other entry is unchanged, and nothing is added |
| `Cleanup.SurvivorsIdempotent` | app.py:18-25 | a second pass at the same time removes nothing more |
| `Cleanup.SurvivorsLaterPass` | app.py:33-34 | a pass followed by a later pass leaves what the later pass alone leaves |
| `Cleanup.SurvivorsMonotone` | app.py:18-24 | a longer maximum age keeps at least the entries a shorter one keeps |
| `Cleanup.Directory.CleanupOldFiles` | app.py:18-25 | the loop over the listing leaves exactly `Survivors` of the initial entries |
| `Cleanup.Directory.Save` | app.py:53 | saving creates or replaces the named regular file with the current time |
| `Handler.LogoFileName` | app.py:52 | `f"logo_{uuid.uuid4().hex}.png"` for the given id |
| `Handler.OutputFileName` | app.py:119 | `f"qrcode_{uuid.uuid4().hex}.png"` for the given id |
| `Handler.OutputUrl` | app.py:122 | the static URL `/static/generated/<output file name>` |
| `Handler.FileNamesDistinct` | app.py:119-122 | distinct ids give distinct output names and URLs, and distinct logo names (line 52), and a logo name is never an output name |
| `Handler.LogoSaved` | app.py:51-53 | the condition under which the logo is saved: the text passes and a non-empty filename has an accepted suffix; `Handler.App.GenerateQr` states that the upload folder gains the logo exactly then |
| `Handler.SavedLogoOfRefusedRequest` | app.py:51-64 | a refused request leaves a saved logo behind only when the colours were refused |
| `Handler.SavedLogoOfAcceptedRequest` | app.py:51-53 | an accepted request saves a logo exactly when the validated request carries one |
| `Handler.PlanFor` | app.py:87-116 | the saved image has a logo exactly when one was accepted and a label exactly when the stripped label text is non-empty |
| `Handler.App.GenerateQr` | app.py:31-124 | both folders are cleaned first; the upload folder gains the logo file exactly when the text passes and the logo is accepted; a refused request answers 400 with the source's message and writes no output file; an accepted one saves `qrcode_<id>.png`, answers with its URL and follows `PlanFor` |

## Left out

- Flask routing, `render_template`, `jsonify`, `url_for` (app.py:1, 11, 27-29, 122-124): HTTP plumbing. The form is the `Form` record and the reply is the `Response` value. The URL is built as `/static/generated/<name>`, without an application root prefix.
- QR encoding and rendering with `qrcode`, `StyledPilImage`, `RoundedModuleDrawer` and `SolidFillColorMask` (app.py:67-84): library code, not part of this model. The rendered size is the parameter `qr`. The `DataOverflowError` raised for text too long for a QR code is not modelled; in the source it becomes an unhandled error after the logo was saved.
- PIL pixel work (app.py:88, 90, 94, 98, 102, 106-116): opening, converting, resampling, alpha pasting and drawing text are library work. Only their geometry is modelled. A corrupt logo makes `Image.open` raise, which the source does not catch; this is not modelled.
- Font loading with the `IOError` fallback, and `textbbox` (app.py:107-112): library calls. The box `textbbox` returns is the parameter `bbox`, given by its left and top and its width and height; this takes `bbox[2] >= bbox[0]` and `bbox[3] >= bbox[1]`, as PIL returns them. The source computes `text_height` but never uses it.
- What PIL and the colour mask do with a negative channel such as -15: this is library behaviour.
- `uuid.uuid4()` (app.py:52, 119): the random ids are parameters.
- `os.makedirs`, `listdir`, `isfile`, `getmtime`, `remove`, `save` (app.py:14-15, 20-25, 53, 121): replaced by the in-memory map of `Directory`. The model assumes every `os.remove` succeeds. In the source a failing removal (a permission error, a file already removed by a concurrent request) raises and aborts the request.
- Clock: `GenerateQr` uses one reading, `now`, for both cleanup passes and both saved files. The source reads `datetime.now()` in each call and the file system stamps each file when it is written. The model does not cover floating-point `getmtime` values rounded to microseconds, or naive local time across daylight-saving changes.
- `PyText.IntBase16`, `PyText.ReadHexSlice`, `Colors.Channel`: Python's `int` also accepts non-ASCII decimal digits (such as Arabic-Indic digits, so `int("\u0663", 16)` is 3) and reads them as ASCII digits. All three reject them.
- Concurrency between requests sharing the two folders: not modelled; each `GenerateQr` call runs alone.
- `static/script.js`: the browser UI, not part of this model.
