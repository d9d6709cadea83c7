/** The decision rule of `generate_image` (main.py:189-238) and of the paste
    handler around it (main.py:295-306), over backends that are opaque:
    matplotlib's typesetting and saving, the HTTP GET and the two image
    decoders each either fail or deliver a result. */
module Rendering {
  import opened Exceptions
  import opened Imaging
  import opened RemoteUrl

  /** Resolution of the local attempt (main.py:210). */
  const LOCAL_DPI: nat := 800

  /** The message shown for any failure of a paste (main.py:304). */
  const NO_CONNECTION_MESSAGE := "Internet No Connection."

  /** `r"${}$".format(formula)` (main.py:204): the formula in math mode. */
  function MathText(formula: string): string
  {
    "$" + formula + "$"
  }

  /** What the local block (main.py:192-212) does with a math text:
      - TypesettingRaises: an exception at lines 192-205 (the figure, the
        font properties, the text artist), before `text.usetex` is switched
        on;
      - SavingRaises: an exception at lines 209-212, while `savefig` draws
        and writes the PNG. `FontProperties(fname=...)` at line 195 only
        records the font path, so a missing font file raises here, after
        line 209;
      - Png: the PNG is written; `QImage.fromData` reads it as an image of
        the given size, or cannot read it (None) and yields a null image. */
  datatype LocalOutcome = TypesettingRaises | SavingRaises | Png(decoded: Option<Size>)

  /** How PIL fares with a response body (main.py:232-237). `Image.open`
      only identifies the image; its pixels are read when `imshow` draws it,
      after the canvas has been installed.
      - OpenRaises: `Image.open` cannot identify the body (line 232);
      - LoadRaises: it is identified, but reading its pixels or drawing the
        canvas raises (lines 236-237), after line 234 replaced the central
        widget;
      - Shown: the canvas shows the image. */
  datatype PilVerdict = OpenRaises | LoadRaises | Shown

  /** What the remote block gets back (main.py:224-237):
      - GetRaises: `requests.get` raises, or reading the streamed body
        (`response.content`, line 225) raises before `self.image` is
        reloaded; either way nothing after it runs;
      - Body: a response arrives, whatever its status; Qt's decoder reads
        it as an image of the given size or not (None), and PIL does as
        `pil` says. */
  datatype RemoteOutcome = GetRaises | Body(qtDecoded: Option<Size>, pil: PilVerdict)

  /** The foreign code, as deterministic functions of what it is given. The
      local backend also sees matplotlib's `text.usetex` setting in force
      when the text artist is created (main.py:204). */
  datatype Backends = Backends(
    typeset: (string, nat, bool) -> LocalOutcome,
    get: string -> RemoteOutcome)

  /** One call into a backend, as the outside world sees it. */
  datatype Call = Typeset(mathText: string, dpi: nat, usetex: bool) | Get(url: string)

  /** The process around the window: the backends, matplotlib's global
      `rcParams['text.usetex']`, and the log of every backend call made. */
  class Environment {
    const backends: Backends
    var usetex: bool
    var calls: seq<Call>

    /** matplotlib starts with `text.usetex` off. */
    constructor (backends: Backends)
      ensures this.backends == backends && !usetex && calls == []
    {
      this.backends := backends;
      usetex := false;
      calls := [];
    }

    /** The local block of main.py:192-212. Line 209 switches `text.usetex`
        on whenever typesetting got that far, for this and every later call. */
    method RenderLocally(mathText: string, dpi: nat) returns (outcome: LocalOutcome)
      modifies this
      ensures outcome == backends.typeset(mathText, dpi, old(usetex))
      ensures calls == old(calls) + [Typeset(mathText, dpi, old(usetex))]
      ensures usetex == (old(usetex) || !outcome.TypesettingRaises?)
    {
      outcome := backends.typeset(mathText, dpi, usetex);
      calls := calls + [Typeset(mathText, dpi, usetex)];
      if !outcome.TypesettingRaises? {
        usetex := true;
      }
    }

    /** `requests.get(url, stream=True)` (main.py:224). */
    method HttpGet(url: string) returns (outcome: RemoteOutcome)
      modifies this`calls
      ensures outcome == backends.get(url)
      ensures calls == old(calls) + [Get(url)]
    {
      outcome := backends.get(url);
      calls := calls + [Get(url)];
    }
  }

  /** Everything one call of `generate_image` does, as seen from outside:
      the backend calls in order, `text.usetex` afterwards, the image the text
      edit is given to show (the size requested from `QImage.scaled`), the
      new value of `self.image` if the remote block loaded one, whether the
      central widget was replaced by the plot canvas, and the result. */
  datatype Run = Run(
    calls: seq<Call>,
    usetex: bool,
    displayed: Option<Size>,
    loaded: Option<Image>,
    canvasShown: bool,
    result: Result<Image>)

  /** The local block completes: typesetting and saving succeed, the
      decoded image has a width `crop_image` can divide by, and the text
      edit that `display_image` gives the image to still exists (`textEdit`;
      main.py:265). */
  predicate LocalCompletes(b: Backends, usetex: bool, textEdit: bool, formula: string)
  {
    var outcome := b.typeset(MathText(formula), LOCAL_DPI, usetex);
    outcome.Png? && FromData(outcome.decoded).size.width > 0 && textEdit
  }

  /** The except branch of `generate_image` (main.py:220-238). Nothing
      there is caught: a failing GET, or a body PIL cannot identify or read,
      raises. */
  function Remote(b: Backends, usetex: bool, formula: string): Run
  {
    var url := FallbackUrl(formula);
    match b.get(url)
    case GetRaises => Run([Get(url)], usetex, None, None, false, Raise(RemoteFailure))
    case Body(qtDecoded, pil) =>
      var image := FromData(qtDecoded);
      Run([Get(url)], usetex, None, Some(image), !pil.OpenRaises?,
          if pil.Shown? then Ok(Composite(image, WHITE)) else Raise(RemoteFailure))
  }

  /** `generate_image(formula)` in a window of the given width, whose text
      edit still exists when `textEdit` holds (main.py:189-238): the local
      attempt first; any exception in it, including the ZeroDivisionError
      or RuntimeError of its own `crop_image` call, selects the remote
      branch instead. */
  function Generate(b: Backends, usetex: bool, textEdit: bool, windowWidth: nat, formula: string): Run
  {
    var outcome := b.typeset(MathText(formula), LOCAL_DPI, usetex);
    var first := Typeset(MathText(formula), LOCAL_DPI, usetex);
    var usetexAfter := usetex || !outcome.TypesettingRaises?;
    if LocalCompletes(b, usetex, textEdit, formula) then
      var image := FromData(outcome.decoded);
      Run([first], usetexAfter, Some(CropTarget(windowWidth, image.size).value), None, false, Ok(image))
    else
      var remote := Remote(b, usetexAfter, formula);
      remote.(calls := [first] + remote.calls)
  }

  /** Number of local attempts among some backend calls. */
  function LocalAttempts(calls: seq<Call>): nat
  {
    if calls == [] then 0 else (if calls[0].Typeset? then 1 else 0) + LocalAttempts(calls[1..])
  }

  /** Number of requests to the remote service among some backend calls. */
  function RemoteAttempts(calls: seq<Call>): nat
  {
    if calls == [] then 0 else (if calls[0].Get? then 1 else 0) + RemoteAttempts(calls[1..])
  }

  /** The calls of one `generate_image`: the local attempt with the formula
      in math mode at 800 dpi comes first and comes once; one request for the
      fallback URL follows exactly when the local block did not complete. */
  lemma GenerateCalls(b: Backends, usetex: bool, textEdit: bool, windowWidth: nat, formula: string)
    ensures var run := Generate(b, usetex, textEdit, windowWidth, formula);
      run.calls == [Typeset("$" + formula + "$", LOCAL_DPI, usetex)] +
        (if LocalCompletes(b, usetex, textEdit, formula) then [] else [Get(FallbackUrl(formula))])
  {
  }

  /** At most once, never both: one local attempt, no retry, at most one
      remote request, and a remote request if and only if the local block
      did not complete. */
  lemma {:induction false} GenerateAttemptsOnce(b: Backends, usetex: bool, textEdit: bool, windowWidth: nat, formula: string)
    ensures var run := Generate(b, usetex, textEdit, windowWidth, formula);
      && LocalAttempts(run.calls) == 1
      && RemoteAttempts(run.calls) <= 1
      && (RemoteAttempts(run.calls) == 1 <==> !LocalCompletes(b, usetex, textEdit, formula))
  {
    var run := Generate(b, usetex, textEdit, windowWidth, formula);
    GenerateCalls(b, usetex, textEdit, windowWidth, formula);
    var rest := run.calls[1..];
    assert run.calls == [run.calls[0]] + rest;
    if LocalCompletes(b, usetex, textEdit, formula) {
      assert rest == [];
    } else {
      assert rest == [Get(FallbackUrl(formula))];
      assert rest[1..] == [];
      assert LocalAttempts(rest) == 0 && RemoteAttempts(rest) == 1;
    }
  }

  /** When the local block completes, its decoded image is returned, the
      text edit is given it to show at the window's width, and the remote
      branch leaves no trace: no request, no load, no canvas. */
  lemma LocalSuccessSkipsRemote(b: Backends, usetex: bool, textEdit: bool, windowWidth: nat, formula: string)
    requires LocalCompletes(b, usetex, textEdit, formula)
    ensures var run := Generate(b, usetex, textEdit, windowWidth, formula);
      var decoded := b.typeset(MathText(formula), LOCAL_DPI, usetex).decoded;
      && run.result == Ok(FromData(decoded))
      && run.displayed == Some(Size(windowWidth, decoded.value.height * windowWidth / decoded.value.width))
      && run.loaded == None && !run.canvasShown
      && run.usetex
  {
  }

  /** When the local block does not complete, the outcome is exactly that of
      one remote attempt, and the text edit is not given a new image. */
  lemma LocalFailureFallsBack(b: Backends, usetex: bool, textEdit: bool, windowWidth: nat, formula: string)
    requires !LocalCompletes(b, usetex, textEdit, formula)
    ensures var run := Generate(b, usetex, textEdit, windowWidth, formula);
      var response := b.get(FallbackUrl(formula));
      && run.displayed == None
      && (run.result.Raise? <==> response.GetRaises? || !response.pil.Shown?)
      && (run.canvasShown <==> response.Body? && !response.pil.OpenRaises?)
      && (run.result.Ok? ==> run.loaded.Some? && run.canvasShown
                             && run.result.value == Composite(run.loaded.value, WHITE))
  {
  }

  /** Only the remote branch can make `generate_image` raise: an exception
      of the local block, the ZeroDivisionError and RuntimeError of its
      `crop_image` call included, never escapes. */
  lemma GenerateRaisesOnlyRemotely(b: Backends, usetex: bool, textEdit: bool, windowWidth: nat, formula: string)
    ensures var run := Generate(b, usetex, textEdit, windowWidth, formula);
      run.result.Raise? ==> run.result.error == RemoteFailure && RemoteAttempts(run.calls) == 1
  {
    GenerateAttemptsOnce(b, usetex, textEdit, windowWidth, formula);
  }

  /** What the fallback returns is an opaque white-backed image of the same
      size as the image just loaded into `self.image`, unless that image is
      empty: then the result is the null image. */
  lemma RemoteResultIsOpaqueCopy(b: Backends, usetex: bool, textEdit: bool, windowWidth: nat, formula: string)
    requires !LocalCompletes(b, usetex, textEdit, formula)
    ensures var run := Generate(b, usetex, textEdit, windowWidth, formula);
      run.result.Ok? ==>
        && run.loaded.Some?
        && (!EmptySize(run.loaded.value.size) ==>
              && run.result.value.size == run.loaded.value.size
              && Opaque(run.result.value)
              && run.result.value.layers[0] == Solid(WHITE))
        && (EmptySize(run.loaded.value.size) ==> run.result.value == NULL_IMAGE)
  {
    var run := Generate(b, usetex, textEdit, windowWidth, formula);
    if run.result.Ok? {
      CompositeProperties(run.loaded.value, WHITE);
    }
  }

  /** Once the text edit is gone, `display_image` raises at main.py:265
      whatever the local block rendered, so every `generate_image` makes
      the remote request and shows nothing in the text edit: the outcome is
      that of the fallback alone. */
  lemma DeletedTextEditAlwaysFallsBack(b: Backends, usetex: bool, windowWidth: nat, formula: string)
    ensures var run := Generate(b, usetex, false, windowWidth, formula);
      var usetexAfter := usetex || !b.typeset(MathText(formula), LOCAL_DPI, usetex).TypesettingRaises?;
      && run.calls == [Typeset(MathText(formula), LOCAL_DPI, usetex), Get(FallbackUrl(formula))]
      && run.displayed == None
      && run.result == Remote(b, usetexAfter, formula).result
      && run.loaded == Remote(b, usetexAfter, formula).loaded
  {
  }

  /** Qt's and PIL's decoders are separate: a body PIL reads but Qt does
      not leaves `self.image` null, and the fallback then returns a null
      image, which `init_render_formula`'s own `crop_image` cannot divide by. */
  lemma FallbackMayReturnNullImage(b: Backends, usetex: bool, textEdit: bool, windowWidth: nat, formula: string)
    requires !LocalCompletes(b, usetex, textEdit, formula)
    requires b.get(FallbackUrl(formula)) == Body(None, Shown)
    ensures var run := Generate(b, usetex, textEdit, windowWidth, formula);
      && run.loaded == Some(NULL_IMAGE)
      && run.result == Ok(NULL_IMAGE)
      && CropTarget(windowWidth, run.result.value.size) == Raise(ZeroDivisionError)
  {
  }

  /** What the paste handler adds after `generate_image` returns or raises
      (main.py:300-304): a save prompt for the image, or the one message. */
  datatype Reaction = Reaction(messages: seq<string>, savePrompts: seq<Image>)

  function React(result: Result<Image>): Reaction
  {
    match result
    case Ok(image) => Reaction([], [image])
    case Raise(_) => Reaction([NO_CONNECTION_MESSAGE], [])
  }

  /** A paste ends in exactly one of two ways: the image is offered for
      saving and no message appears, or the single "Internet No Connection."
      message appears and nothing is offered for saving. */
  lemma ReactExactlyOne(result: Result<Image>)
    ensures var reaction := React(result);
      && |reaction.messages| + |reaction.savePrompts| == 1
      && (result.Ok? <==> |reaction.savePrompts| == 1)
      && (result.Ok? ==> reaction.savePrompts == [result.value])
      && (result.Raise? <==> reaction.messages == ["Internet No Connection."])
  {
  }
}
