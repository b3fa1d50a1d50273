/**
 * Decoded images and the colour-mode flattening rule of the handler.
 *
 * A pixel is held as the colour and alpha that the image shows (what
 * `convert('RGBA')` would give): a luminance pixel has r == g == b, a palette
 * pixel holds its palette colour and the palette's transparency, and a pixel
 * matching an image's colour key shows alpha 0. Pixel values produced by the
 * resampling filter are not modelled (`Filtered`).
 */
module Imaging {

  datatype Rgba = Rgba(r: int, g: int, b: int, a: int)

  type Grid = seq<seq<Rgba>>

  /** Rows of pixels, or values computed by the resampling filter. */
  datatype Raster = Pixels(rows: Grid) | Filtered

  /** An image edge: the decoder refuses an image with no rows or no columns. */
  type Dim = n: nat | 1 <= n witness 1

  /**
   * `mode` is PIL's mode name ("RGB", "RGBA", "LA", "P", "L", "CMYK", ...).
   * `keyed` says that `info['transparency']` holds a single transparent
   * colour or palette index (a PNG tRNS chunk on an L, RGB or P image, a GIF's
   * transparent index): the colour key, which conversions to RGB carry over.
   */
  datatype Image = Image(width: Dim, height: Dim, mode: string, raster: Raster, keyed: bool)

  const White := Rgba(255, 255, 255, 255)

  predicate Channel(v: int) {
    0 <= v <= 255
  }

  predicate ValidPixel(p: Rgba) {
    Channel(p.r) && Channel(p.g) && Channel(p.b) && Channel(p.a)
  }

  /**
   * Every pixel of the raster is fully opaque. A resampled raster counts as
   * opaque: the lemmas below draw conclusions from this only for RGB images
   * without a colour key (through `Flat`), and such an image shows no
   * transparency whatever its pixel values.
   */
  predicate Opaque(raster: Raster) {
    raster.Pixels? ==>
      forall i, j :: 0 <= i < |raster.rows| && 0 <= j < |raster.rows[i]| ==> raster.rows[i][j].a == 255
  }

  /** The modes that can carry a colour key. */
  predicate KeyableMode(mode: string) {
    mode == "L" || mode == "RGB" || mode == "P"
  }

  /**
   * What a decoder hands over: a colour key only on L, RGB and P images; an
   * RGB image without a key is opaque; a grid of the image's shape with
   * channels in range.
   */
  predicate WellFormed(img: Image) {
    && (img.keyed ==> KeyableMode(img.mode))
    && (img.mode == "RGB" && !img.keyed ==> Opaque(img.raster))
    && (img.raster.Pixels? ==>
          && |img.raster.rows| == img.height
          && (forall i :: 0 <= i < img.height ==> |img.raster.rows[i]| == img.width)
          && (forall i, j :: 0 <= i < img.height && 0 <= j < img.width ==> ValidPixel(img.raster.rows[i][j])))
  }

  /** Modes that the handler composites onto white through their alpha band. */
  predicate NeedsCompositing(mode: string) {
    mode == "RGBA" || mode == "LA" || mode == "P"
  }

  /** Rounded division by 255 as done in integer pixel arithmetic. */
  function Div255(v: int): int {
    var t := v + 128;
    (t / 256 + t) / 256
  }

  /** One channel of `fg` pasted over `bg` through a mask value `alpha`. */
  function Blend(bg: int, fg: int, alpha: int): int {
    Div255(bg * (255 - alpha) + fg * alpha)
  }

  /** A pixel pasted onto the white canvas with its own alpha as the mask. */
  function OverWhite(p: Rgba): Rgba {
    Rgba(Blend(255, p.r, p.a), Blend(255, p.g, p.a), Blend(255, p.b, p.a), 255)
  }

  /** A pixel copied without a mask: its colour, and no alpha band. */
  function DropAlpha(p: Rgba): Rgba {
    Rgba(p.r, p.g, p.b, 255)
  }

  function MapPixels(raster: Raster, f: Rgba -> Rgba): (r: Raster)
  {
    match raster
    case Filtered => Filtered
    case Pixels(rows) =>
      Pixels(seq(|rows|, i requires 0 <= i < |rows| =>
        seq(|rows[i]|, j requires 0 <= j < |rows[i]| => f(rows[i][j]))))
  }

  /** A pixel-wise map keeps the raster's shape and transforms each pixel where it stood. */
  lemma MapPixelsShape(raster: Raster, f: Rgba -> Rgba)
    ensures var r := MapPixels(raster, f);
      && (r.Pixels? <==> raster.Pixels?)
      && (r.Pixels? ==> |r.rows| == |raster.rows|)
      && (r.Pixels? ==> forall i :: 0 <= i < |r.rows| ==> |r.rows[i]| == |raster.rows[i]|)
      && (r.Pixels? ==> forall i, j :: 0 <= i < |r.rows| && 0 <= j < |r.rows[i]| ==> r.rows[i][j] == f(raster.rows[i][j]))
  {
  }

  /**
   * An image with no colour key and every pixel opaque. An image with a key
   * is not `Flat` even when no pixel matches the key: the key stays in
   * `info` and is written back on save.
   */
  predicate Flat(img: Image) {
    !img.keyed && Opaque(img.raster)
  }

  /**
   * `img.convert('RGB')`: same size and colours. An alpha band or a palette
   * alpha table is discarded; a colour key is carried over (as the key's
   * colour), so its pixels still show transparent.
   */
  function ConvertRgb(img: Image): (r: Image)
    ensures r.mode == "RGB" && r.width == img.width && r.height == img.height
    ensures r.keyed == img.keyed
    ensures img.keyed ==> r.raster == img.raster
  {
    Image(img.width, img.height, "RGB", if img.keyed then img.raster else MapPixels(img.raster, DropAlpha), img.keyed)
  }

  /**
   * Converting a well-formed image to RGB gives a well-formed image, which
   * has no colour key and every pixel opaque exactly when the source had no
   * colour key; a source's key stays on the result.
   */
  lemma ConvertRgbWellFormed(img: Image)
    requires WellFormed(img)
    ensures WellFormed(ConvertRgb(img))
    ensures Flat(ConvertRgb(img)) <==> !img.keyed
  {
    MapPixelsShape(img.raster, DropAlpha);
  }

  /**
   * `img.convert('RGBA')` of a palette image: the palette colours and
   * transparency become the bands, and the key is consumed.
   */
  function ConvertRgba(img: Image): Image {
    img.(mode := "RGBA", keyed := false)
  }

  /**
   * `Image.new('RGB', img.size, (255, 255, 255))` followed by
   * `background.paste(img, mask=...)`: `masked` says whether the alpha band
   * is passed as the mask.
   */
  function PasteOnWhite(img: Image, masked: bool): Image {
    Image(img.width, img.height, "RGB", MapPixels(img.raster, if masked then OverWhite else DropAlpha), false)
  }

  /**
   * An L or RGB image with a colour key: the flattening rule tests only the
   * mode, so the key, and the transparency it gives, survive it.
   */
  predicate KeepsColourKey(img: Image) {
    img.keyed && !NeedsCompositing(img.mode)
  }

  /** The flattening rule: RGBA, LA and P are composited onto white; any other non-RGB mode is converted. */
  function Flatten(img: Image): (r: Image)
    ensures r.mode == "RGB" && r.width == img.width && r.height == img.height
    ensures r.keyed <==> KeepsColourKey(img)
    ensures img.mode == "RGB" ==> r == img
    ensures NeedsCompositing(img.mode) ==> r == PasteOnWhite(img, true)
    ensures !NeedsCompositing(img.mode) ==> r == ConvertRgb(img) || r == img
  {
    if NeedsCompositing(img.mode) then
      var src := if img.mode == "P" then ConvertRgba(img) else img;
      PasteOnWhite(src, src.mode == "RGBA" || src.mode == "LA")
    else if img.mode != "RGB" then
      ConvertRgb(img)
    else
      img
  }

  lemma Div255Range(v: int)
    requires 0 <= v <= 255 * 255
    ensures 0 <= Div255(v) <= 255
  {
    var t := v + 128;
    assert t / 256 <= 254;
  }

  /** Dividing an exact multiple of 255 is exact. */
  lemma {:induction false} Div255Exact(c: int)
    requires 0 <= c <= 255
    ensures Div255(255 * c) == c
  {
    var t := 255 * c + 128;
    assert t == 256 * c + (128 - c);
    if c <= 128 {
      assert t / 256 == c;
      assert t / 256 + t == 256 * c + 128;
    } else {
      assert t / 256 == c - 1;
      assert t / 256 + t == 256 * c + 127;
    }
  }

  lemma ScaledChannel(c: int, k: int)
    requires Channel(c) && 0 <= k
    ensures 0 <= c * k <= 255 * k
  {
  }

  lemma BlendRange(bg: int, fg: int, alpha: int)
    requires Channel(bg) && Channel(fg) && Channel(alpha)
    ensures Channel(Blend(bg, fg, alpha))
  {
    ScaledChannel(bg, 255 - alpha);
    ScaledChannel(fg, alpha);
    Div255Range(bg * (255 - alpha) + fg * alpha);
  }

  /** With mask value 0 the background shows; with 255 the pasted colour does. */
  lemma BlendEndpoints(bg: int, fg: int)
    requires Channel(bg) && Channel(fg)
    ensures Blend(bg, fg, 0) == bg && Blend(bg, fg, 255) == fg
  {
    assert bg * (255 - 0) + fg * 0 == 255 * bg;
    assert bg * (255 - 255) + fg * 255 == 255 * fg;
    Div255Exact(bg);
    Div255Exact(fg);
  }

  /**
   * Compositing onto white: the result is opaque and in range, a fully
   * transparent pixel becomes white and a fully opaque pixel keeps its colour.
   */
  lemma {:induction false} OverWhiteEndpoints(p: Rgba)
    requires ValidPixel(p)
    ensures ValidPixel(OverWhite(p)) && OverWhite(p).a == 255
    ensures p.a == 0 ==> OverWhite(p) == White
    ensures p.a == 255 ==> OverWhite(p) == Rgba(p.r, p.g, p.b, 255)
  {
    BlendRange(255, p.r, p.a);
    BlendRange(255, p.g, p.a);
    BlendRange(255, p.b, p.a);
    BlendEndpoints(255, p.r);
    BlendEndpoints(255, p.g);
    BlendEndpoints(255, p.b);
  }

  /**
   * Flattening a well-formed image gives a well-formed RGB image of the same
   * size, which has no colour key and every pixel opaque exactly when the
   * image is not an L or RGB image with a colour key; such a key stays.
   */
  lemma {:induction false} FlattenWellFormed(img: Image)
    requires WellFormed(img)
    ensures WellFormed(Flatten(img))
    ensures Flat(Flatten(img)) <==> !KeepsColourKey(img)
  {
    var r := Flatten(img);
    MapPixelsShape(img.raster, OverWhite);
    MapPixelsShape(img.raster, DropAlpha);
    if r.raster.Pixels? {
      var rows := img.raster.rows;
      forall i, j | 0 <= i < r.height && 0 <= j < r.width
        ensures ValidPixel(r.raster.rows[i][j]) && (!r.keyed ==> r.raster.rows[i][j].a == 255)
      {
        if NeedsCompositing(img.mode) {
          OverWhiteEndpoints(rows[i][j]);
        }
      }
    }
  }

  /**
   * The pixels of an image flattened onto white: for RGBA, LA and P a fully
   * transparent pixel becomes white and a fully opaque one keeps its colour.
   */
  lemma {:induction false} FlattenPixel(img: Image, i: nat, j: nat)
    requires WellFormed(img) && NeedsCompositing(img.mode) && img.raster.Pixels?
    requires i < img.height && j < img.width
    ensures var p, q := img.raster.rows[i][j], Flatten(img).raster.rows[i][j];
      && (p.a == 0 ==> q == White)
      && (p.a == 255 ==> q == Rgba(p.r, p.g, p.b, 255))
  {
    MapPixelsShape(img.raster, OverWhite);
    OverWhiteEndpoints(img.raster.rows[i][j]);
  }

  /**
   * A keyed L or RGB image leaves the flattening rule with its key and with
   * every pixel showing as it did, fully transparent ones included.
   */
  lemma FlattenKeepsKey(img: Image)
    requires KeepsColourKey(img) && KeyableMode(img.mode)
    ensures Flatten(img).keyed && Flatten(img).raster == img.raster
  {
  }

  /** Flattening an already flattened image changes nothing. */
  lemma FlattenIdempotent(img: Image)
    ensures Flatten(Flatten(img)) == Flatten(img)
  {
  }
}
