/** The images that pass through `LaTeXDisplayWindow`, reduced to what the
    code of main.py decides about them: their size, their pixel format and
    how their pixels were produced. Pixel values, blending and resampling
    belong to Qt and stay abstract. */
module Imaging {
  import opened Exceptions

  /** Width and height of a QImage, in pixels. A null QImage (what
      `QImage()` and a failed decode give) is 0 by 0. */
  datatype Size = Size(width: nat, height: nat)

  type Channel = x: int | 0 <= x < 256

  /** An opaque RGB colour, as QColor and Qt.GlobalColor give it here. */
  datatype Color = Color(red: Channel, green: Channel, blue: Channel)

  /** `Qt.GlobalColor.white` (main.py:227). */
  const WHITE := Color(255, 255, 255)

  /** Invalid is the format of a null image, Rgb32 the opaque format the
      code asks for (main.py:226, 243); a decoder picks its own format. */
  datatype Format = Invalid | Rgb32 | ChosenByDecoder

  /** How a region of pixels came about, from the bottom up:
      decoded from image bytes, filled with one colour, or painted with
      `CompositionMode_SourceAtop` from a source image of the given size
      drawn at the origin. */
  datatype Layer = Decoded | Solid(colour: Color) | SourceAtop(source: Size)

  datatype Image = Image(size: Size, format: Format, layers: seq<Layer>)

  const NULL_IMAGE := Image(Size(0, 0), Invalid, [])

  /** `QImage.fromData` / `QImage.loadFromData` on a buffer that the decoder
      reads as an image of the given size, or cannot read (None): then the
      image is null. */
  function FromData(decoded: Option<Size>): Image
  {
    match decoded
    case Some(size) => Image(size, ChosenByDecoder, [Decoded])
    case None => NULL_IMAGE
  }

  /** A size with no pixels, as Qt's `QSize.isEmpty` says. */
  predicate EmptySize(size: Size)
  {
    size.width == 0 || size.height == 0
  }

  /** A null QImage: no pixels at all. Qt refuses to fill or paint it. */
  predicate IsNull(img: Image)
  {
    img.format == Invalid || EmptySize(img.size)
  }

  /** An image with no transparency left: the opaque 32-bit RGB format, its
      pixels first set to one solid colour. */
  predicate Opaque(img: Image)
  {
    img.format == Rgb32 && |img.layers| > 0 && img.layers[0].Solid?
  }

  /** What `change_background` and the fallback branch of `generate_image`
      build (main.py:226-230, 242-248): a new RGB32 image of the source's
      size, filled with the background colour, with the source drawn on it
      at the origin in SourceAtop mode. For a source of empty size the new
      image is null and stays null. */
  function Composite(source: Image, background: Color): Image
  {
    if EmptySize(source.size) then NULL_IMAGE
    else Image(source.size, Rgb32,
               [Solid(background)] + if IsNull(source) then [] else [SourceAtop(source.size)])
  }

  /** The composite of a non-empty source is opaque, of the source's size,
      and filled with the background before anything else; the composite of
      an empty source is the null image. */
  lemma CompositeProperties(source: Image, background: Color)
    ensures var r := Composite(source, background);
      && (!EmptySize(source.size) ==>
            r.size == source.size && Opaque(r) && r.layers[0] == Solid(background))
      && (EmptySize(source.size) ==> r == NULL_IMAGE)
  {
  }

  /** A QImage that the code paints on in place. */
  class Raster {
    var size: Size
    var format: Format
    var layers: seq<Layer>

    function Value(): Image
      reads this
    {
      Image(size, format, layers)
    }

    /** `QImage(size, format)`: the pixels are not initialised; an empty
        size or the invalid format gives a null image. */
    constructor (size: Size, format: Format)
      ensures Value() == if EmptySize(size) || format == Invalid then NULL_IMAGE
                         else Image(size, format, [])
    {
      if EmptySize(size) || format == Invalid {
        this.size := NULL_IMAGE.size;
        this.format := Invalid;
      } else {
        this.size := size;
        this.format := format;
      }
      layers := [];
    }

    /** `QImage.fill(colour)`: every pixel becomes the colour, so nothing
        drawn before shows any more. A null image is left as it is. */
    method Fill(colour: Color)
      modifies this
      ensures Value() == if IsNull(old(Value())) then old(Value())
                         else old(Value()).(layers := [Solid(colour)])
      ensures !IsNull(Value()) ==> (Opaque(Value()) <==> format == Rgb32)
    {
      if !IsNull(Value()) {
        layers := [Solid(colour)];
      }
    }

    /** A QPainter in `CompositionMode_SourceAtop` drawing `source` at (0, 0):
        the source is laid over the present pixels and the destination's own
        alpha is kept, so an opaque image stays opaque and keeps its size.
        Painting on a null image, or drawing a null source, does nothing. */
    method DrawAtop(source: Image)
      modifies this
      ensures Value() == if IsNull(old(Value())) || IsNull(source) then old(Value())
                         else old(Value()).(layers := old(layers) + [SourceAtop(source.size)])
      ensures old(Opaque(Value())) ==> Opaque(Value())
    {
      if !IsNull(Value()) && !IsNull(source) {
        layers := layers + [SourceAtop(source.size)];
      }
    }
  }

  /** The size `crop_image` asks `QImage.scaled` for (main.py:253-255): the
      window's width, and the image's height scaled by the same factor,
      truncated to an integer. An image of width 0 makes the division raise. */
  function CropTarget(windowWidth: nat, image: Size): (r: Result<Size>)
    ensures r.Raise? <==> image.width == 0
    ensures r.Raise? ==> r.error == ZeroDivisionError
    ensures r.Ok? ==> r.value.width == windowWidth
    ensures r.Ok? ==> r.value.height * image.width <= image.height * windowWidth
                      < (r.value.height + 1) * image.width
  {
    if image.width == 0 then Raise(ZeroDivisionError)
    else Ok(Size(windowWidth, image.height * windowWidth / image.width))
  }

  /** Multiplying by the same natural number keeps the order. */
  lemma MulMonotone(a: nat, b: nat, c: nat)
    requires a <= b
    ensures a * c <= b * c
  {
    assert b * c == a * c + (b - a) * c;
  }

  /** An image that already has the window's width keeps its height. */
  lemma CropTargetAtWindowWidth(windowWidth: nat, image: Size)
    requires image.width == windowWidth > 0
    ensures CropTarget(windowWidth, image) == Ok(image)
  {
    var h := CropTarget(windowWidth, image).value.height;
    if h < image.height {
      MulMonotone(h + 1, image.height, windowWidth);
    } else if h > image.height {
      MulMonotone(image.height + 1, h, windowWidth);
    }
  }

  /** Of two images of the same width, the taller one gets the taller target:
      scaling keeps the order of heights. */
  lemma CropTargetMonotone(windowWidth: nat, a: Size, b: Size)
    requires a.width == b.width > 0 && a.height <= b.height
    ensures CropTarget(windowWidth, a).value.height <= CropTarget(windowWidth, b).value.height
  {
    var ha := CropTarget(windowWidth, a).value.height;
    var hb := CropTarget(windowWidth, b).value.height;
    MulMonotone(a.height, b.height, windowWidth);
    if ha > hb {
      MulMonotone(hb + 1, ha, a.width);
    }
  }
}
