# LaTeX Text2Img: the formula-to-image path, in Dafny

LaTeX Text2Img is a small PySide6 application. It turns a LaTeX formula taken from the clipboard into an image. Its only decision logic sits in `LaTeXDisplayWindow` in `main.py`. This project models that logic and proves properties of the model.

- **Local rendering first.** `generate_image` puts the formula in math mode (`$formula$`), typesets it with matplotlib, saves it as a PNG at 800 dpi and decodes it into a QImage. Its own `crop_image` call then shows the image in the text edit.
- **One remote fallback.** Any exception in that block selects one request to the codecogs service instead. The request URL ends with `\dpi{600}` followed by the formula, with only its spaces escaped as `%20`. The fallback reloads `self.image` from the response and draws it with SourceAtop onto a new white RGB32 image. It shows the image in a matplotlib canvas that replaces the central widget, and returns the white-backed image. Nothing in the fallback is caught.
- **Paste handling.** `keyPressEvent` reacts to Ctrl+V. It ignores empty clipboard text. Otherwise it offers the rendered image for saving, or shows the single message "Internet No Connection." when `generate_image` raised.
- **Sizing.** `crop_image` asks for the window's width and the height scaled by the same factor. An image of width 0 (a null QImage) raises ZeroDivisionError, and inside `generate_image` that also selects the fallback.
- **The text edit does not survive the canvas.** The text edit sits in the panel that `init_ui` installs as the central widget. When the fallback installs the canvas, Qt deletes that panel once control is back in the event loop. From the next key event on, `display_image` raises at main.py:265, so every later paste falls back to the remote service even when local rendering works.
- **`change_background`** builds the same kind of opaque composite with any background colour.

The modules are:

- `Exceptions` (`exceptions.dfy`): `Result`/`Option`, and the two exceptions that can leave a modelled operation. These are ZeroDivisionError, RuntimeError (the deleted text edit) and RemoteFailure. RemoteFailure is anything raised by `requests.get`, by `PIL.Image.open`, or by the canvas calls that read and draw the image (main.py:233-237). The source does not tell these apart.
- `RemoteUrl` (`remote_url.dfy`): the space escaping and the fallback URL.
  - `Unescape` is the decoding of `%20` back to spaces that the lemmas compare the escaping with.
  - `HasEscape` says whether a formula already holds `%20`.
- `Imaging` (`imaging.dfy`): image sizes, formats and how pixels were produced.
  - `Raster` is the class for a QImage that is filled and painted in place.
  - `Composite` is the opaque white-backed or coloured copy. For a source of empty size it is the null image, because Qt neither fills nor paints a null QImage.
  - `CropTarget` is the sizing arithmetic of `crop_image`.
- `Rendering` (`rendering.dfy`): the backends, given as opaque functions.
  - A response carries two independent verdicts: Qt's decode of the body, and PIL's. PIL's verdict (`PilVerdict`) is one of three: `Image.open` cannot identify the body; the pixels cannot be read when the canvas draws them, after the canvas was installed; or the image is shown.
  - The `Environment` class holds matplotlib's global `text.usetex` setting and a log of every backend call.
  - `Generate` is the decision rule of `generate_image`, as a specification function over the backends. `Remote` is its fallback branch, and `React` is what the paste handler adds. The lemmas about them state the "once", "never both" and "only remote failures escape" properties.
- `Window` (`window.dfy`): the `LaTeXDisplayWindow` class. It has the fields the rendering path changes in place: `self.image`, the central widget, the image shown in the text edit, the messages shown, the images offered for saving, forwarded key events, and whether the text edit still exists. Each method ensures that the new state is what `Generate`, `Remote`, `React` and `CropTarget` say.

Line 209 sets `plt.rcParams['text.usetex'] = True` on every call that gets that far. The text artist is created at line 204, before that line runs. So the local backend is given the setting in force before the call. The setting then stays on for the rest of the process. This means two renders of the same formula need not see the same backend behaviour.

What the code does not do:
- The code does not tell network errors from undecodable responses. It does not check the HTTP status.
- The code does not composite or scale the local image.
- The code does not scale the remote composite before returning it.
- The code does not round the scaled height; it truncates it.

## Model

| member | source | states |
|---|---|---|
| RemoteUrl.EncodeSpaces | main.py:222 | the escaped formula contains no space and is never shorter than the formula |
| RemoteUrl.EncodeSpacesLength | main.py:222 | the escaped formula is exactly two characters longer per space |
| RemoteUrl.EncodeSpacesCounts | main.py:222 | spaces vanish; `%`, `2` and `0` each gain one occurrence per space; every other character, `\ { } ^ + &` included, occurs as often as before |
| RemoteUrl.EncodeSpacesAppend | main.py:222 | each character is escaped on its own: escaping distributes over concatenation |
| RemoteUrl.EncodeSpacesFixedPoints | main.py:222 | escaping leaves a string unchanged if and only if it has no space |
| RemoteUrl.EncodeSpacesIdempotent | main.py:222 | escaping an already-escaped formula changes nothing |
| RemoteUrl.UnescapeEncodeSpaces | main.py:222 | decoding `%20` back to spaces recovers the formula, characters and order, when it held no literal `%20` |
| RemoteUrl.EncodingIsNotInjective | main.py:222 | a literal `%20` and a space are escaped alike, so the round trip needs its precondition |
| RemoteUrl.FallbackUrl | main.py:221-223 | the URL is exactly the codecogs prefix with `\dpi{600}` followed by the escaped formula |
| RemoteUrl.FallbackUrlRecoversFormula | main.py:221-223 | the part after the prefix decodes back to the formula when it held no literal `%20` |
| RemoteUrl.FallbackUrlEscapesSpace | main.py:221-223 | a space in the formula reaches the service as `%20` between the escaped parts around it |
| Imaging.CropTarget | main.py:252-255 | target width is the window width; target height is the floor of height times window width over image width; width 0 raises ZeroDivisionError and nothing else does |
| Imaging.CropTargetAtWindowWidth | main.py:253-255 | an image already at the window's width keeps its height |
| Imaging.CropTargetMonotone | main.py:253-255 | for one image width, a taller image never gets a shorter target |
| Imaging.CompositeProperties | main.py:226-230 | the composite of a non-empty source has its size, is opaque RGB32 and is filled with the background first; the composite of an empty source is the null image |
| Imaging.Raster.constructor | main.py:226 | `QImage(size, format)` has the given size and format and no pixels set yet; an empty size or the invalid format gives the null image |
| Imaging.Raster.Fill | main.py:227 | filling replaces all pixels by one colour, keeps size and format, and makes an RGB32 image opaque; a null image is left unchanged |
| Imaging.Raster.DrawAtop | main.py:228-230 | SourceAtop drawing lays the source over the pixels, keeps size and format, and keeps an opaque image opaque; painting on a null image or drawing a null source changes nothing |
| Rendering.Environment.RenderLocally | main.py:192-212 | one logged local attempt at the given text and dpi; `text.usetex` is on afterwards unless typesetting raised before line 209 |
| Rendering.Environment.HttpGet | main.py:224 | one logged GET of the URL, returning the backend's response |
| Rendering.GenerateCalls | main.py:189-224 | the calls are the local attempt on `$formula$` at 800 dpi, then a GET of the fallback URL exactly when the local block did not complete |
| Rendering.GenerateAttemptsOnce | main.py:189-238 | exactly one local attempt, at most one remote request, and a remote request if and only if the local block failed |
| Rendering.LocalSuccessSkipsRemote | main.py:204-217 | when the local block completes, which needs a live text edit, its decoded image is returned and shown at window width; no load, no canvas |
| Rendering.LocalFailureFallsBack | main.py:219-238 | otherwise the text edit is untouched; the call raises if and only if the GET raises or PIL cannot open or read the body; the canvas is installed if and only if a body came back and PIL could open it; on success the white composite of the loaded image is returned |
| Rendering.GenerateRaisesOnlyRemotely | main.py:190-238 | every exception that leaves `generate_image` comes from the one remote attempt; local ones, the crop's ZeroDivisionError included, never escape |
| Rendering.RemoteResultIsOpaqueCopy | main.py:225-230 | when the loaded image is not empty, the fallback result has its size, is opaque RGB32 and starts filled with white; when it is empty, the result is the null image |
| Rendering.FallbackMayReturnNullImage | main.py:225-238 | a body PIL reads but Qt does not leaves `self.image` null and yields the null image, which a later crop cannot divide by |
| Rendering.DeletedTextEditAlwaysFallsBack | main.py:213-238 | with the text edit deleted, `generate_image` always makes the local attempt and then the remote request; it shows nothing in the text edit, and its result and `self.image` are the fallback's |
| Rendering.ReactExactlyOne | main.py:300-304 | after a paste exactly one of a save prompt for the image and the "Internet No Connection." message happens, the message if and only if rendering raised |
| Window.LaTeXDisplayWindow.constructor | main.py:129-166 | an 800-pixel-wide window with a null `self.image`, the text-edit panel as central widget and nothing shown yet |
| Window.LaTeXDisplayWindow.CropImage | main.py:252-266 | shows the image at the `CropTarget` size; it raises if and only if the image width is 0 (ZeroDivisionError) or the text edit is deleted (RuntimeError), and then shows nothing new |
| Window.LaTeXDisplayWindow.GenerateImage | main.py:189-238 | result, backend calls, `text.usetex`, shown image, `self.image` and central widget are those of `Generate` for the window's width and whether its text edit exists |
| Window.LaTeXDisplayWindow.FallBack | main.py:219-238 | result, calls, `self.image` and central widget are those of `Remote`: the canvas replaces the central widget unless the GET raises or PIL cannot open the body |
| Window.LaTeXDisplayWindow.ChangeBackground | main.py:241-249 | the result is `Composite` of the resource on the colour: of the resource's size and opaque when that size is not empty, the null image otherwise |
| Window.LaTeXDisplayWindow.InitRenderFormula | main.py:183-186 | renders, then crops the result; a remote failure or a result of width 0 raises, and so would a deleted text edit, and nothing else does; calls, `text.usetex`, `self.image` and central widget are those of `Generate` in every case; the text edit shows the crop target on success and what `generate_image` showed when it raises |
| Window.OpenWindow | main.py:129-172 | a new window renders the formula `init_ui` starts with, with the outcome and state `InitRenderFormula` gives from the constructor's state, the text edit still present; no message, save prompt or forwarded key |
| Window.LaTeXDisplayWindow.KeyPress | main.py:295-306 | the text edit is gone once an earlier fallback installed the canvas; other keys go to the base class; empty clipboard text changes nothing else; otherwise one `generate_image` with the text edit as it now stands, and exactly the reaction `React` gives |
| Window.PasteAfterFallback | main.py:295-304 | a paste after the canvas replaced the panel makes the local attempt and then the remote request, shows nothing in the text edit, and offers what the fallback returns |

## Left out

- Qt widgets and their event overrides are not modelled. This covers `CustomTextEdit`, `CustomTextDocument`, `RoundedCornerWindow`, `MplCanvas`, `init_ui`, `center_window` and `display_image`. The model records only which central widget is installed and which size the text edit was asked to show.
- matplotlib typesetting and `savefig` are foreign code. They are a parameter (`Backends.typeset`) that fails before line 209, fails after it, or writes a PNG. Figures that an exception leaves open are not tracked.
- `requests.get` and the network round trip are I/O. They are a parameter (`Backends.get`). No timeout exists in the source and none is modelled.
- Decoding through `QImage.fromData`, `QImage.loadFromData` and `PIL.Image.open` is foreign code. Each decoder's verdict is part of the backend's answer, and Qt's and PIL's verdicts are independent.
- Pixel values are not modelled. That covers QPainter's SourceAtop blending and `QImage.scaled` with `KeepAspectRatioByExpanding` and `FastTransformation`. The model keeps sizes, formats and the order in which pixels were produced. It records the size requested from `scaled`, not the size Qt returns.
- Imaging.CropTarget: computes the height with exact integer division. The source computes `int(h * (W / w))` in floating point, which can come out one lower when the float product falls just short of an integer.
- Window.LaTeXDisplayWindow.CropImage: shares that exact-division simplification.
- Clipboard access is I/O. The clipboard text is a parameter of `KeyPress`.
- The save dialogs `prompt_to_save` and `save_response_image` are UI and I/O. Only the images offered for saving are recorded. An exception inside `prompt_to_save` would reach the same "Internet No Connection." handler, and that path is not modelled.
- Qt's deferred deletion of the replaced panel is modelled only as it affects the text edit: the model deletes the text edit when the next key event arrives. Other events that could arrive in between are not modelled.
- `__init__` ends by rendering its local `default_formula` (main.py:169) through `init_render_formula`. `Window.OpenWindow` models that, with the formula as a parameter. Its literal text is not modelled, because only the escaping of spaces depends on it and the escaping is proved for every formula.
- Window.LaTeXDisplayWindow.KeyPress: Qt's modifier set is reduced to Control, Shift, Alt and Meta. Keys other than V are not told apart.
