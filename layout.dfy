/**
 * Page geometry of a certificate: background placement by cover, contain,
 * stretch or autosize (run1.py:68-86, run1.py:113-130) and the position of the
 * name (run1.py:88-97). Arithmetic is exact (`real`), not floating point.
 * The image size and the width of the rendered name are inputs: they come
 * from the image reader and the font metrics.
 */
module Layout {
  import opened Wrappers
  import opened Text

  /** An image dimension in pixels; every readable raster image has positive size. */
  type Pixels = n: int | n > 0 witness 1

  /** The intrinsic size of the template image, as `ImageReader.getSize()` reports it. */
  datatype ImageSize = ImageSize(width: Pixels, height: Pixels)

  /** Where and how large the background image is drawn. */
  datatype Placement = Placement(x: real, y: real, width: real, height: real)

  /** A laid-out certificate page: its size, the background and the baseline start of the name. */
  datatype Page = Page(width: real, height: real, background: Placement, nameX: real, nameY: real)

  /** The layout settings of the configuration block (run1.py:26-32). */
  datatype LayoutConfig = LayoutConfig(
    pageSizeMode: string,      // "autosize", or anything else for landscape letter
    fitMode: string,           // "cover" | "contain" | "stretch"
    centerHorizontally: bool,
    nameXOffset: real,
    nameYAbs: Option<real>)

  /** The configuration the program ships with. */
  const DEFAULT_LAYOUT := LayoutConfig("autosize", "cover", true, 0.0, None)

  /** `landscape(letter)`: 11 by 8.5 inches at 72 points per inch. */
  const LANDSCAPE_LETTER_WIDTH: real := 792.0
  const LANDSCAPE_LETTER_HEIGHT: real := 612.0

  /** Left margin of the name when it is not centred. */
  const NAME_LEFT_MARGIN: real := 100.0
  /** Height of the name above the page centre when no absolute height is set. */
  const NAME_ABOVE_CENTRE: real := 215.0

  function Max(a: real, b: real): real { if a >= b then a else b }
  function Min(a: real, b: real): real { if a <= b then a else b }

  /** Draws an image of `sw` by `sh` at scale `scale`, centred on a `pw` by `ph` page. */
  function Centred(sw: real, sh: real, scale: real, pw: real, ph: real): Placement {
    var dw, dh := sw * scale, sh * scale;
    Placement((pw - dw) / 2.0, (ph - dh) / 2.0, dw, dh)
  }

  /** `draw_bg_cover`: uniform scale by the larger axis ratio, centred. */
  function Cover(iw: real, ih: real, pw: real, ph: real): Placement
    requires iw > 0.0 && ih > 0.0
  {
    Centred(iw, ih, Max(pw / iw, ph / ih), pw, ph)
  }

  /** `draw_bg_contain`: uniform scale by the smaller axis ratio, centred. */
  function Contain(iw: real, ih: real, pw: real, ph: real): Placement
    requires iw > 0.0 && ih > 0.0
  {
    Centred(iw, ih, Min(pw / iw, ph / ih), pw, ph)
  }

  /** `draw_bg_stretch`: the whole page, ignoring the aspect ratio. */
  function Stretch(pw: real, ph: real): Placement {
    Placement(0.0, 0.0, pw, ph)
  }

  /** Centring at any scale keeps the aspect ratio and puts the middle of the image in the middle of the page. */
  lemma CentredIsCentred(sw: real, sh: real, scale: real, pw: real, ph: real)
    ensures var p := Centred(sw, sh, scale, pw, ph);
      && p.width * sh == p.height * sw
      && p.x + p.width / 2.0 == pw / 2.0
      && p.y + p.height / 2.0 == ph / 2.0
  {
    assert sw * scale * sh == sh * scale * sw;
  }

  /**
   * Cover fills the page: the drawn image is at least the page on both axes
   * and exactly the page on one, keeps its aspect ratio, is centred, and so
   * starts at or before the page's lower-left corner.
   */
  lemma CoverFillsPage(iw: real, ih: real, pw: real, ph: real)
    requires iw > 0.0 && ih > 0.0 && pw > 0.0 && ph > 0.0
    ensures var p := Cover(iw, ih, pw, ph);
      && p.width >= pw && p.height >= ph
      && (p.width == pw || p.height == ph)
      && p.width * ih == p.height * iw
      && p.x + p.width / 2.0 == pw / 2.0 && p.y + p.height / 2.0 == ph / 2.0
      && p.x <= 0.0 && p.y <= 0.0
  {
  }

  /**
   * Contain fits the page: the drawn image is at most the page on both axes
   * and exactly the page on one, keeps its aspect ratio, is centred, and so
   * leaves non-negative margins.
   */
  lemma ContainFitsPage(iw: real, ih: real, pw: real, ph: real)
    requires iw > 0.0 && ih > 0.0 && pw > 0.0 && ph > 0.0
    ensures var p := Contain(iw, ih, pw, ph);
      && p.width <= pw && p.height <= ph
      && (p.width == pw || p.height == ph)
      && p.width * ih == p.height * iw
      && p.x + p.width / 2.0 == pw / 2.0 && p.y + p.height / 2.0 == ph / 2.0
      && p.x >= 0.0 && p.y >= 0.0
  {
  }

  /** Worked example: a 100 by 50 image on a 200 by 200 page. */
  lemma CoverContainExample()
    ensures Cover(100.0, 50.0, 200.0, 200.0) == Placement(-100.0, 0.0, 400.0, 200.0)
    ensures Contain(100.0, 50.0, 200.0, 200.0) == Placement(0.0, 50.0, 200.0, 100.0)
  {
  }

  /**
   * The fit-mode dispatch of `make_certificate_pdf`: "stretch" and "contain"
   * (in any letter case) select those placements, anything else is cover.
   */
  function FitBackground(fitMode: string, iw: real, ih: real, pw: real, ph: real): Placement
    requires iw > 0.0 && ih > 0.0
  {
    var mode := Lower(fitMode);
    if mode == "stretch" then Stretch(pw, ph)
    else if mode == "contain" then Contain(iw, ih, pw, ph)
    else Cover(iw, ih, pw, ph)
  }

  /** The fit mode is compared without regard to letter case. */
  lemma FitModeIgnoresCase(fitMode: string, iw: real, ih: real, pw: real, ph: real)
    requires iw > 0.0 && ih > 0.0
    ensures FitBackground(Lower(fitMode), iw, ih, pw, ph) == FitBackground(fitMode, iw, ih, pw, ph)
  {
    LowerIdempotent(fitMode);
  }

  /** `draw_name`: where the name's baseline starts, for a name `tw` points wide. */
  function NamePosition(cfg: LayoutConfig, pw: real, ph: real, tw: real): (real, real) {
    var y := if cfg.nameYAbs.Some? then cfg.nameYAbs.value else ph / 2.0 + NAME_ABOVE_CENTRE;
    var x := if cfg.centerHorizontally then (pw - tw) / 2.0 + cfg.nameXOffset
             else NAME_LEFT_MARGIN + cfg.nameXOffset;
    (x, y)
  }

  /**
   * A centred name has its midpoint at the page's middle plus the offset;
   * otherwise it starts at the left margin plus the offset. The height is the
   * absolute value when one is set, and 215 above the page centre otherwise.
   */
  lemma NamePlacement(cfg: LayoutConfig, pw: real, ph: real, tw: real)
    ensures var (x, y) := NamePosition(cfg, pw, ph, tw);
      && (cfg.centerHorizontally ==> x + tw / 2.0 == pw / 2.0 + cfg.nameXOffset)
      && (!cfg.centerHorizontally ==> x == NAME_LEFT_MARGIN + cfg.nameXOffset)
      && (cfg.nameYAbs.Some? ==> y == cfg.nameYAbs.value)
      && (cfg.nameYAbs.None? ==> y - ph / 2.0 == NAME_ABOVE_CENTRE)
  {
  }

  /** The page size, background placement and name position of a certificate. */
  function PageLayout(cfg: LayoutConfig, img: ImageSize, tw: real): Page {
    var iw, ih := img.width as real, img.height as real;
    var (pw, ph, bg) :=
      if Lower(cfg.pageSizeMode) == "autosize" then (iw, ih, Stretch(iw, ih))
      else (LANDSCAPE_LETTER_WIDTH, LANDSCAPE_LETTER_HEIGHT,
            FitBackground(cfg.fitMode, iw, ih, LANDSCAPE_LETTER_WIDTH, LANDSCAPE_LETTER_HEIGHT));
    var (nx, ny) := NamePosition(cfg, pw, ph, tw);
    Page(pw, ph, bg, nx, ny)
  }

  /**
   * Autosize: the page is exactly the image's pixel size and the image fills
   * it from the origin at scale one, neither cropped nor letterboxed.
   */
  lemma AutosizePage(cfg: LayoutConfig, img: ImageSize, tw: real)
    requires Lower(cfg.pageSizeMode) == "autosize"
    ensures var p := PageLayout(cfg, img, tw);
      && p.width == img.width as real && p.height == img.height as real
      && p.background == Placement(0.0, 0.0, p.width, p.height)
  {
  }

  /**
   * A fixed landscape-letter page: stretch fills it exactly, contain fits
   * inside it touching two sides, and every other mode covers it touching
   * two sides; contain and cover keep the image's aspect ratio and are
   * centred on the page.
   */
  lemma FixedPageBackground(cfg: LayoutConfig, img: ImageSize, tw: real)
    requires Lower(cfg.pageSizeMode) != "autosize"
    ensures var p := PageLayout(cfg, img, tw);
      var b, mode := p.background, Lower(cfg.fitMode);
      var iw, ih := img.width as real, img.height as real;
      && p.width == LANDSCAPE_LETTER_WIDTH && p.height == LANDSCAPE_LETTER_HEIGHT
      && (mode == "stretch" ==> b == Placement(0.0, 0.0, p.width, p.height))
      && (mode != "stretch" ==>
            && b.width * ih == b.height * iw
            && b.x + b.width / 2.0 == p.width / 2.0 && b.y + b.height / 2.0 == p.height / 2.0)
      && (mode == "contain" ==>
            && b.width <= p.width && b.height <= p.height && (b.width == p.width || b.height == p.height)
            && b.x >= 0.0 && b.y >= 0.0)
      && (mode != "stretch" && mode != "contain" ==>
            && b.width >= p.width && b.height >= p.height && (b.width == p.width || b.height == p.height)
            && b.x <= 0.0 && b.y <= 0.0)
  {
    var iw, ih := img.width as real, img.height as real;
    CoverFillsPage(iw, ih, LANDSCAPE_LETTER_WIDTH, LANDSCAPE_LETTER_HEIGHT);
    ContainFitsPage(iw, ih, LANDSCAPE_LETTER_WIDTH, LANDSCAPE_LETTER_HEIGHT);
  }

  /**
   * With the shipped settings the page is the template's size and the name is
   * centred horizontally, 215 points above the middle of the page.
   */
  lemma DefaultLayout(img: ImageSize, tw: real)
    ensures var p := PageLayout(DEFAULT_LAYOUT, img, tw);
      && p.width == img.width as real && p.height == img.height as real
      && p.nameX + tw / 2.0 == p.width / 2.0
      && p.nameY == p.height / 2.0 + NAME_ABOVE_CENTRE
  {
    assert Lower(DEFAULT_LAYOUT.pageSizeMode) == "autosize";
  }
}
