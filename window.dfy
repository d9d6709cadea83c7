/** `LaTeXDisplayWindow` (main.py:127-306) with the state its rendering path
    changes in place: the `self.image` QImage, the central widget, the image
    shown in the text edit, and what the user is shown or asked. */
module Window {
  import opened Exceptions
  import opened Imaging
  import opened RemoteUrl
  import opened Rendering

  /** `init_ui` fixes the window at 800 by 600 (main.py:149-150). */
  const WINDOW_WIDTH: nat := 800

  /** The dpi of the matplotlib canvas the fallback shows (main.py:233). */
  const CANVAS_DPI: nat := 600

  /** The central widget: the panel holding the text edit that `init_ui`
      installs, or the matplotlib canvas the fallback installs (main.py:233-234). */
  datatype CentralWidget = TextEditPanel | PlotCanvas(dpi: nat)

  datatype Modifier = Control | Shift | Alt | Meta
  datatype Key = KeyV | OtherKey(code: int)
  datatype KeyEvent = KeyEvent(modifiers: set<Modifier>, key: Key)

  /** `event.modifiers() == ControlModifier and event.key() == Key_V`
      (main.py:296): Control alone, with V. */
  predicate IsPaste(event: KeyEvent)
  {
    event.modifiers == {Control} && event.key == KeyV
  }

  class LaTeXDisplayWindow {
    const width: nat
    /** `self.image`, reloaded in place by the fallback (main.py:136, 225). */
    var image: Image
    var central: CentralWidget
    /** The image in the text edit's document: the size `crop_image` asked
        `QImage.scaled` for, or None while the document is empty. */
    var shown: Option<Size>
    /** Information boxes shown, in order. */
    var messages: seq<string>
    /** Images offered to `prompt_to_save`, in order. */
    var savePrompts: seq<Image>
    /** Key events handed on to `QMainWindow.keyPressEvent`. */
    var forwardedKeys: seq<KeyEvent>
    /** Whether the C++ object behind `self.text_edit` still exists. The
        text edit lives in the panel `init_ui` makes the central widget
        (main.py:154, 164); `setCentralWidget` (main.py:234) schedules that
        panel for deletion, which Qt carries out once control is back in
        the event loop, before the next key event is delivered. */
    var textEditAlive: bool

    /** The window as `__init__` leaves it before rendering the default
        formula (main.py:129-166). */
    constructor ()
      ensures width == WINDOW_WIDTH && image == NULL_IMAGE && central == TextEditPanel
      ensures shown == None && messages == [] && savePrompts == [] && forwardedKeys == []
      ensures textEditAlive
    {
      width := WINDOW_WIDTH;
      image := NULL_IMAGE;
      central := TextEditPanel;
      shown := None;
      messages := [];
      savePrompts := [];
      forwardedKeys := [];
      textEditAlive := true;
    }

    /** The window state after `run`, given the state before it. */
    ghost predicate Reflects(run: Run, shown0: Option<Size>, image0: Image, central0: CentralWidget)
      reads this
    {
      && shown == (if run.displayed.Some? then run.displayed else shown0)
      && image == (if run.loaded.Some? then run.loaded.value else image0)
      && central == (if run.canvasShown then PlotCanvas(CANVAS_DPI) else central0)
    }

    /** `crop_image` (main.py:252-258): scale to the window's width, keeping
        the aspect ratio, and show the result in the text edit through
        `display_image` (main.py:261-266). Dividing by an image width of 0
        raises first; a deleted text edit makes `setDocument` raise at
        line 265. Either way nothing new is shown. */
    method CropImage(img: Image) returns (r: Result<()>)
      modifies this`shown
      ensures r.Raise? <==> img.size.width == 0 || !textEditAlive
      ensures img.size.width == 0 ==> r == Raise(ZeroDivisionError)
      ensures img.size.width > 0 && !textEditAlive ==> r == Raise(RuntimeError)
      ensures r.Raise? ==> shown == old(shown)
      ensures r.Ok? ==> shown == Some(CropTarget(width, img.size).value)
    {
      if img.size.width == 0 {
        return Raise(ZeroDivisionError);
      }
      var newHeight := img.size.height * width / img.size.width;
      if !textEditAlive {
        return Raise(RuntimeError);
      }
      shown := Some(Size(width, newHeight));
      r := Ok(());
    }

    /** `generate_image` (main.py:189-238): one local attempt, and on any
        exception in it one remote attempt whose exceptions propagate. */
    method GenerateImage(formula: string, env: Environment) returns (r: Result<Image>)
      modifies this`shown, this`image, this`central, env
      ensures var run := Generate(env.backends, old(env.usetex), textEditAlive, width, formula);
        && r == run.result
        && env.calls == old(env.calls) + run.calls
        && env.usetex == run.usetex
        && Reflects(run, old(shown), old(image), old(central))
    {
      var outcome := env.RenderLocally(MathText(formula), LOCAL_DPI);
      if outcome.Png? {
        var img := FromData(outcome.decoded);
        var cropped := CropImage(img);
        if cropped.Ok? {
          return Ok(img);
        }
      }
      r := FallBack(formula, env);
    }

    /** The except branch of `generate_image` (main.py:220-238). */
    method FallBack(formula: string, env: Environment) returns (r: Result<Image>)
      modifies this`image, this`central, env`calls
      ensures var run := Remote(env.backends, env.usetex, formula);
        && r == run.result
        && env.calls == old(env.calls) + run.calls
        && Reflects(run, shown, old(image), old(central))
    {
      var url := FallbackUrl(formula);
      var response := env.HttpGet(url);
      if response.GetRaises? {
        return Raise(RemoteFailure);
      }
      image := FromData(response.qtDecoded);
      var dest := new Raster(image.size, Rgb32);
      dest.Fill(WHITE);
      dest.DrawAtop(image);
      if response.pil.OpenRaises? {
        return Raise(RemoteFailure);
      }
      central := PlotCanvas(CANVAS_DPI);
      if response.pil.LoadRaises? {
        return Raise(RemoteFailure);
      }
      r := Ok(dest.Value());
    }

    /** `change_background` (main.py:241-249): the loaded resource drawn on
        a new opaque image of its size filled with the background colour.
        A resource that did not load gives an empty size, and then the
        result is the null image. */
    method ChangeBackground(resource: Image, background: Color) returns (pixmap: Image)
      ensures pixmap == Composite(resource, background)
      ensures !EmptySize(resource.size) ==>
        pixmap.size == resource.size && Opaque(pixmap) && pixmap.layers[0] == Solid(background)
      ensures EmptySize(resource.size) ==> pixmap == NULL_IMAGE
    {
      var dest := new Raster(resource.size, Rgb32);
      dest.Fill(background);
      dest.DrawAtop(resource);
      pixmap := dest.Value();
      if !EmptySize(resource.size) && !IsNull(resource) {
        assert pixmap.layers == [Solid(background)] + [SourceAtop(resource.size)];
      }
    }

    /** The window state after `init_render_formula` rendered `run` and
        cropped its result, with outcome `r`, given the state before it. */
    ghost predicate ReflectsInit(run: Run, r: Result<()>, shown0: Option<Size>, image0: Image,
                                 central0: CentralWidget)
      reads this
    {
      && image == (if run.loaded.Some? then run.loaded.value else image0)
      && central == (if run.canvasShown then PlotCanvas(CANVAS_DPI) else central0)
      && if r.Raise? then shown == (if run.displayed.Some? then run.displayed else shown0)
         else run.result.Ok? && CropTarget(width, run.result.value.size).Ok?
              && shown == Some(CropTarget(width, run.result.value.size).value)
    }

    /** `init_render_formula` (main.py:183-186): render, then crop and show
        the result; nothing is caught, so either step may raise. */
    method InitRenderFormula(formula: string, env: Environment) returns (r: Result<()>)
      modifies this`shown, this`image, this`central, env
      ensures var run := Generate(env.backends, old(env.usetex), textEditAlive, width, formula);
        && env.calls == old(env.calls) + run.calls
        && env.usetex == run.usetex
        && r == InitOutcome(run.result, textEditAlive)
        && ReflectsInit(run, r, old(shown), old(image), old(central))
    {
      var img := GenerateImage(formula, env);
      if img.Raise? {
        return Raise(img.error);
      }
      r := CropImage(img.value);
      if r.Ok? {
        assert r.value == ();
      }
    }

    /** `keyPressEvent` (main.py:295-306). Ctrl+V renders the clipboard text,
        unless it is empty, and then either offers the image for saving or
        shows the one error message; any other key goes to the base class.
        By the time the event arrives, a panel an earlier fallback replaced
        has been deleted, and the text edit with it. */
    method KeyPress(event: KeyEvent, clipboardText: string, env: Environment)
      modifies this`shown, this`image, this`central, this`messages, this`savePrompts, this`forwardedKeys,
               this`textEditAlive, env
      ensures textEditAlive == (old(textEditAlive) && old(central).TextEditPanel?)
      ensures !IsPaste(event) ==>
        forwardedKeys == old(forwardedKeys) + [event] && unchanged(env) &&
        shown == old(shown) && image == old(image) && central == old(central) &&
        messages == old(messages) && savePrompts == old(savePrompts)
      ensures IsPaste(event) && clipboardText == [] ==>
        unchanged(env) && shown == old(shown) && image == old(image) && central == old(central) &&
        messages == old(messages) && savePrompts == old(savePrompts) && forwardedKeys == old(forwardedKeys)
      ensures IsPaste(event) && clipboardText != [] ==>
        var run := Generate(env.backends, old(env.usetex), textEditAlive, width, clipboardText);
        var reaction := React(run.result);
        && env.calls == old(env.calls) + run.calls
        && env.usetex == run.usetex
        && Reflects(run, old(shown), old(image), old(central))
        && messages == old(messages) + reaction.messages
        && savePrompts == old(savePrompts) + reaction.savePrompts
        && forwardedKeys == old(forwardedKeys)
    {
      textEditAlive := textEditAlive && central.TextEditPanel?;
      if !IsPaste(event) {
        forwardedKeys := forwardedKeys + [event];
        return;
      }
      if clipboardText == [] {
        return;
      }
      var img := GenerateImage(clipboardText, env);
      match img
      case Ok(value) =>
        savePrompts := savePrompts + [value];
      case Raise(_) =>
        messages := messages + [NO_CONNECTION_MESSAGE];
    }
  }

  /** What `init_render_formula` ends with, given what `generate_image`
      returned or raised and whether the text edit exists: its exception,
      the ZeroDivisionError of cropping an image of width 0, the
      RuntimeError of showing it in a deleted text edit, or nothing. */
  function InitOutcome(result: Result<Image>, textEdit: bool): Result<()>
  {
    if result.Raise? then Raise(result.error)
    else if result.value.size.width == 0 then Raise(ZeroDivisionError)
    else if !textEdit then Raise(RuntimeError)
    else Ok(())
  }

  /** `LaTeXDisplayWindow()` (main.py:129-172): the window is built, then
      `init_ui` renders its `default_formula` (main.py:169), given here as
      `formula`, through `init_render_formula` (main.py:172), whose
      exceptions leave `__init__` uncaught. No event has been processed
      yet, so the text edit still exists even if the fallback replaced the
      central widget. */
  method OpenWindow(env: Environment, formula: string) returns (window: LaTeXDisplayWindow, r: Result<()>)
    modifies env
    ensures fresh(window) && window.width == WINDOW_WIDTH
    ensures window.textEditAlive
    ensures var run := Generate(env.backends, old(env.usetex), true, WINDOW_WIDTH, formula);
      && env.calls == old(env.calls) + run.calls
      && env.usetex == run.usetex
      && r == InitOutcome(run.result, true)
      && window.ReflectsInit(run, r, None, NULL_IMAGE, TextEditPanel)
    ensures window.messages == [] && window.savePrompts == [] && window.forwardedKeys == []
  {
    window := new LaTeXDisplayWindow();
    r := window.InitRenderFormula(formula, env);
  }

  /** A paste in a window whose central widget is already the canvas: the
      text edit is gone, so however the local attempt goes the paste makes
      the remote request, shows nothing in the text edit, and ends as the
      fallback alone decides. */
  method PasteAfterFallback(window: LaTeXDisplayWindow, event: KeyEvent, text: string, env: Environment)
    requires window.central.PlotCanvas? && IsPaste(event) && text != []
    modifies window, env
    ensures !window.textEditAlive && window.shown == old(window.shown)
    ensures env.calls == old(env.calls) + [Typeset(MathText(text), LOCAL_DPI, old(env.usetex)), Get(FallbackUrl(text))]
    ensures var usetexAfter := old(env.usetex) || !env.backends.typeset(MathText(text), LOCAL_DPI, old(env.usetex)).TypesettingRaises?;
      window.savePrompts == old(window.savePrompts) + React(Remote(env.backends, usetexAfter, text).result).savePrompts
  {
    window.KeyPress(event, text, env);
    DeletedTextEditAlwaysFallsBack(env.backends, old(env.usetex), window.width, text);
  }
}
