/** Output shapes of the dense descriptors: the window grid of HOG and LBP,
    their channel counts, and the whole-image IGO and ES descriptors. Window
    sizes and steps are in pixels. */
module Descriptors {
  import opened Geometry
  import opened LbpMapping
  import opened LbpPattern

  /** Spatial size and number of channels of an image or feature image. */
  datatype Shape = Shape(height: nat, width: nat, channels: nat)

  /** The ways a configuration is invalid; each is reported before any work. */
  datatype ConfigError =
    | NonPositiveSize
    | EmptyRadiusList
    | MismatchedRadiusSamples

  datatype Result<T> = Ok(value: T) | Err(error: ConfigError)

  /** Sliding-window placement, in pixels. */
  datatype Window = Window(height: int, width: int, stepVertical: int, stepHorizontal: int, padding: bool)

  predicate ValidWindow(w: Window)
  {
    w.height >= 1 && w.width >= 1 && w.stepVertical >= 1 && w.stepHorizontal >= 1
  }

  function GridOf(image: Shape, w: Window): Grid
    requires ValidWindow(w)
  {
    WindowGrid(image.height, image.width, w.height, w.width, w.stepVertical, w.stepHorizontal, w.padding)
  }

  // ---------------------------------------------------------------------------
  // HOG

  datatype HogAlgorithm = DalalTriggs | ZhuRamanan

  datatype HogConfig = HogConfig(algorithm: HogAlgorithm, cellSize: int, blockSize: int, numBins: int, window: Window)

  predicate ValidHog(c: HogConfig)
  {
    ValidWindow(c.window) && c.cellSize >= 1 && c.blockSize >= 1 && c.numBins >= 1
  }

  /** Dalal-Triggs blocks along a window side: blocks of blockSize cells
      stepped one cell at a time, counted by the last pixel of each block
      from blockSize*cellSize - 1 onward. */
  function DalalTriggsBlocks(windowSide: int, blockSize: int, cellSize: int): (n: nat)
    requires blockSize >= 1 && cellSize >= 1
    ensures n >= 1 <==> windowSide >= blockSize * cellSize
    ensures windowSide >= blockSize * cellSize ==> n == (windowSide - blockSize * cellSize) / cellSize + 1
  {
    var blockPixels := blockSize * cellSize;
    MulPositive(blockSize, cellSize);
    FirstWindowAt(blockPixels, windowSide, cellSize);
    WindowCount(blockPixels - 1, windowSide, cellSize)
  }

  /** Windows of `size` pixels stepped by `step` over `extent` pixels, counted
      by their last pixels: (extent - size) / step + 1 once the first fits. */
  lemma FirstWindowAt(size: int, extent: int, step: int)
    requires size >= 1 && step >= 1
    ensures extent >= size ==> WindowCount(size - 1, extent, step) == (extent - size) / step + 1
  {
    if extent >= size {
      var q := (extent - size) / step;
      assert extent - size == q * step + (extent - size) % step;
      assert (size - 1) + (q + 1) * step == size - 1 + q * step + step;
      CountUnique(size - 1, extent, step, q + 1);
    }
  }

  /** round(a / b) as the HOG code computes it (Python 2 round, halves away
      from zero) for a non-negative a and a positive b: the integer nearest
      a / b, halves rounded up. */
  function Round(a: int, b: int): (r: int)
    requires a >= 0 && b >= 1
    ensures 2 * a - b < 2 * b * r <= 2 * a + b
  {
    var r := (2 * a + b) / (2 * b);
    assert 2 * a + b == r * (2 * b) + (2 * a + b) % (2 * b);
    r
  }

  /** Zhu-Ramanan cells along a window side, without the outer ring: there
      is at least one exactly when the side holds two and a half cells. */
  function ZhuRamananBlocks(windowSide: int, cellSize: int): (n: int)
    requires windowSide >= 0 && cellSize >= 1
    ensures n >= 1 <==> 2 * windowSide >= 5 * cellSize
  {
    RoundAtLeastThree(windowSide, cellSize);
    Round(windowSide, cellSize) - 2
  }

  /** Channels of one HOG window. A Dalal-Triggs descriptor is non-empty iff
      the window holds a block; a Zhu-Ramanan window without interior cells
      gives an empty descriptor. */
  function HogChannels(c: HogConfig): (n: nat)
    requires ValidHog(c)
    ensures c.algorithm == DalalTriggs ==>
              (n > 0 <==> c.window.width >= c.blockSize * c.cellSize && c.window.height >= c.blockSize * c.cellSize)
    ensures c.algorithm == ZhuRamanan ==>
              (n > 0 <==> 2 * c.window.width >= 5 * c.cellSize && 2 * c.window.height >= 5 * c.cellSize)
  {
    match c.algorithm
    case DalalTriggs =>
      var bv := DalalTriggsBlocks(c.window.height, c.blockSize, c.cellSize);
      var bh := DalalTriggsBlocks(c.window.width, c.blockSize, c.cellSize);
      var perBlock := c.blockSize * c.blockSize * c.numBins;
      MulPositive(c.blockSize, c.blockSize);
      MulPositive(c.blockSize * c.blockSize, c.numBins);
      MulNat(bv, bh);
      MulNat(bv * bh, perBlock);
      if bv >= 1 && bh >= 1 then
        MulPositive(bv, bh);
        MulPositive(bv * bh, perBlock);
        bv * bh * perBlock
      else
        bv * bh * perBlock
    case ZhuRamanan =>
      var bv := ZhuRamananBlocks(c.window.height, c.cellSize);
      var bh := ZhuRamananBlocks(c.window.width, c.cellSize);
      if bv <= 0 || bh <= 0 then 0
      else
        MulPositive(bv, bh);
        MulPositive(bv * bh, 31);
        bv * bh * 31
  }

  /** Dense HOG: one descriptor of HogChannels values per window position. */
  function Hog(image: Shape, c: HogConfig): (r: Result<Shape>)
    ensures r.Ok? <==> ValidHog(c)
    ensures r.Err? ==> r.error == NonPositiveSize
    ensures r.Ok? ==> r.value.channels == HogChannels(c)
  {
    if !ValidHog(c) then Err(NonPositiveSize)
    else
      var g := GridOf(image, c.window);
      Ok(Shape(g.vertical, g.horizontal, HogChannels(c)))
  }

  // ---------------------------------------------------------------------------
  // LBP

  datatype LbpConfig = LbpConfig(radius: seq<int>, samples: seq<int>, mapping: Mapping,
                                 stepVertical: int, stepHorizontal: int, padding: bool)

  predicate AllPositive(s: seq<int>)
  {
    forall i :: 0 <= i < |s| ==> s[i] >= 1
  }

  predicate ValidLbp(c: LbpConfig)
  {
    |c.radius| >= 1 && |c.radius| == |c.samples| && AllPositive(c.radius) && AllPositive(c.samples)
      && c.stepVertical >= 1 && c.stepHorizontal >= 1
  }

  function Max(s: seq<int>): (m: int)
    requires |s| >= 1
    ensures forall i :: 0 <= i < |s| ==> s[i] <= m
    ensures exists i :: 0 <= i < |s| && s[i] == m
  {
    if |s| == 1 then s[0]
    else
      var rest := Max(s[1..]);
      assert forall i :: 1 <= i < |s| ==> s[i] == s[1..][i - 1];
      if s[0] >= rest then s[0] else rest
  }

  /** The window of a multi-radius LBP: wide enough for the largest circle. */
  function LbpWindow(c: LbpConfig): Window
    requires ValidLbp(c)
  {
    var side := 2 * Max(c.radius) + 1;
    Window(side, side, c.stepVertical, c.stepHorizontal, c.padding)
  }

  /** Dense LBP: one code per (radius, samples) pair and input channel at each
      window position. */
  function Lbp(image: Shape, c: LbpConfig): (r: Result<Shape>)
    ensures r.Ok? <==> ValidLbp(c)
    ensures r.Err? && |c.radius| != |c.samples| ==> r.error == MismatchedRadiusSamples
    ensures r.Err? && |c.radius| == |c.samples| == 0 ==> r.error == EmptyRadiusList
    ensures r.Err? && |c.radius| == |c.samples| >= 1 ==> r.error == NonPositiveSize
    ensures r.Ok? ==> r.value.channels == |c.radius| * image.channels
  {
    if |c.radius| != |c.samples| then Err(MismatchedRadiusSamples)
    else if |c.radius| == 0 then Err(EmptyRadiusList)
    else if !ValidLbp(c) then Err(NonPositiveSize)
    else
      var g := GridOf(image, LbpWindow(c));
      Ok(Shape(g.vertical, g.horizontal, |c.radius| * image.channels))
  }

  // ---------------------------------------------------------------------------
  // IGO and ES: whole-image descriptors

  /** Image gradient orientations: cos and sin of the gradient angle per input
      channel, and of the doubled angle as well when doubleAngles is set. */
  function Igo(image: Shape, doubleAngles: bool): (r: Shape)
    ensures r.height == image.height && r.width == image.width
    ensures !doubleAngles ==> r.channels == 2 * image.channels
    ensures doubleAngles ==> r.channels == 4 * image.channels
  {
    Shape(image.height, image.width, (if doubleAngles then 4 else 2) * image.channels)
  }

  /** Edge structure: the two normalised gradient components per input channel. */
  function Es(image: Shape): (r: Shape)
    ensures r.height == image.height && r.width == image.width
    ensures r.channels == 2 * image.channels
  {
    Shape(image.height, image.width, 2 * image.channels)
  }

  // ---------------------------------------------------------------------------
  // Properties

  /** With padding, HOG and LBP anchor a window at every step from the first
      pixel: the grid is len(range(0, height, step)) by len(range(0, width, step))
      whatever the window size. */
  lemma PaddedGridShape(image: Shape, w: Window)
    requires ValidWindow(w) && w.padding
    ensures GridOf(image, w) == Grid(WindowCount(0, image.height, w.stepVertical),
                                            WindowCount(0, image.width, w.stepHorizontal))
    ensures GridOf(image, w).vertical * w.stepVertical >= image.height
    ensures GridOf(image, w).vertical > 0 ==> (GridOf(image, w).vertical - 1) * w.stepVertical < image.height
  {
  }

  /** Without padding the grid counts the windows that fit: their last pixels
      run from window_size - 1 below the extent. */
  lemma UnpaddedGridShape(image: Shape, w: Window)
    requires ValidWindow(w) && !w.padding
    ensures GridOf(image, w) == Grid(WindowCount(w.height - 1, image.height, w.stepVertical),
                                            WindowCount(w.width - 1, image.width, w.stepHorizontal))
    ensures GridOf(image, w).vertical == 0 <==> w.height > image.height
    ensures GridOf(image, w).horizontal == 0 <==> w.width > image.width
  {
  }

  /** HOG with padding (the dense-mode test with random image sizes and steps). */
  lemma HogPaddedShape(image: Shape, c: HogConfig)
    requires ValidHog(c) && c.window.padding
    ensures Hog(image, c).Ok?
    ensures Hog(image, c).value.height == WindowCount(0, image.height, c.window.stepVertical)
    ensures Hog(image, c).value.width == WindowCount(0, image.width, c.window.stepHorizontal)
  {
    PaddedGridShape(image, c.window);
  }

  /** HOG without padding. */
  lemma HogUnpaddedShape(image: Shape, c: HogConfig)
    requires ValidHog(c) && !c.window.padding
    ensures Hog(image, c).Ok?
    ensures Hog(image, c).value.height == WindowCount(c.window.height - 1, image.height, c.window.stepVertical)
    ensures Hog(image, c).value.width == WindowCount(c.window.width - 1, image.width, c.window.stepHorizontal)
    ensures Hog(image, c).value.height <= WindowCount(0, image.height, c.window.stepVertical)
    ensures Hog(image, c).value.width <= WindowCount(0, image.width, c.window.stepHorizontal)
  {
    UnpaddedGridShape(image, c.window);
    UnpaddedAtMostPadded(c.window.height, image.height, c.window.stepVertical);
    UnpaddedAtMostPadded(c.window.width, image.width, c.window.stepHorizontal);
  }

  /** LBP with padding: the grid is the padded one whatever the radii. */
  lemma LbpPaddedShape(image: Shape, c: LbpConfig)
    requires ValidLbp(c) && c.padding
    ensures Lbp(image, c).Ok?
    ensures Lbp(image, c).value.height == WindowCount(0, image.height, c.stepVertical)
    ensures Lbp(image, c).value.width == WindowCount(0, image.width, c.stepHorizontal)
  {
    PaddedGridShape(image, LbpWindow(c));
  }

  /** LBP of a single radius without padding: windows of side 2*radius + 1. */
  lemma LbpUnpaddedShape(image: Shape, c: LbpConfig)
    requires ValidLbp(c) && !c.padding && |c.radius| == 1
    ensures Lbp(image, c).Ok?
    ensures Lbp(image, c).value.height == WindowCount(2 * c.radius[0], image.height, c.stepVertical)
    ensures Lbp(image, c).value.width == WindowCount(2 * c.radius[0], image.width, c.stepHorizontal)
  {
    UnpaddedGridShape(image, LbpWindow(c));
  }

  /** The LBP code image at whole-pixel sample points has the shape the
      unpadded LBP descriptor reports for a single radius and one channel. */
  lemma LbpGridMatchesShape(img: Plane, r: nat, samples: int, mapping: Mapping,
                            stepVertical: int, stepHorizontal: int)
    requires Rectangular(img) && r >= 1 && samples >= 1 && stepVertical >= 1 && stepHorizontal >= 1
    ensures var s := Lbp(Shape(Height(img), Width(img), 1),
                         LbpConfig([r], [samples], mapping, stepVertical, stepHorizontal, false));
            var g := LbpGrid(img, r, mapping, stepVertical, stepHorizontal);
            s.Ok? && s.value.height == |g| && (|g| > 0 ==> s.value.width == |g[0]|) && s.value.channels == 1
  {
    var c := LbpConfig([r], [samples], mapping, stepVertical, stepHorizontal, false);
    assert Max(c.radius) == r;
    LbpUnpaddedShape(Shape(Height(img), Width(img), 1), c);
  }

  /** Dalal-Triggs channels: blocks along each side of the window times
      block_size^2 * num_bins values per block, at least one block per side
      once the window holds a block, whatever the number of input channels. */
  lemma DalalTriggsChannels(image: Shape, c: HogConfig)
    requires ValidHog(c) && c.algorithm == DalalTriggs
    ensures Hog(image, c).value.channels ==
              WindowCount(c.blockSize * c.cellSize - 1, c.window.width, c.cellSize)
                * WindowCount(c.blockSize * c.cellSize - 1, c.window.height, c.cellSize)
                * (c.blockSize * c.blockSize * c.numBins)
    ensures Hog(image, c).value.channels > 0 <==>
              c.window.width >= c.blockSize * c.cellSize && c.window.height >= c.blockSize * c.cellSize
  {
    var bv := DalalTriggsBlocks(c.window.height, c.blockSize, c.cellSize);
    var bh := DalalTriggsBlocks(c.window.width, c.blockSize, c.cellSize);
    var per := c.blockSize * c.blockSize * c.numBins;
    assert per >= 1 by {
      MulPositive(c.blockSize, c.blockSize);
      MulPositive(c.blockSize * c.blockSize, c.numBins);
    }
    assert bv * bh * per == bh * bv * per;
    if bv >= 1 && bh >= 1 {
      MulPositive(bv, bh);
      MulPositive(bv * bh, per);
    }
  }

  lemma MulNat(a: nat, b: nat)
    ensures a * b >= 0
  {
  }

  lemma MulPositive(a: int, b: int)
    requires a >= 1 && b >= 1
    ensures a * b >= 1
  {
  }

  /** A rounded quotient is at least 3 iff a / b is at least 2.5. */
  lemma RoundAtLeastThree(a: int, b: int)
    requires a >= 0 && b >= 1
    ensures Round(a, b) >= 3 <==> 2 * a >= 5 * b
  {
    var r := Round(a, b);
    if r >= 3 {
      MulMonotone(3, r, 2 * b);
    } else {
      MulMonotone(r, 2, 2 * b);
    }
  }

  /** Zhu-Ramanan channels: 31 per interior cell, the cells per side being the
      rounded number of cells less the outer two, non-zero exactly when both
      window sides hold two and a half cells. */
  lemma ZhuRamananChannels(image: Shape, c: HogConfig)
    requires ValidHog(c) && c.algorithm == ZhuRamanan
    ensures Hog(image, c).value.channels > 0 <==>
              2 * c.window.width >= 5 * c.cellSize && 2 * c.window.height >= 5 * c.cellSize
    ensures Hog(image, c).value.channels > 0 ==>
              Hog(image, c).value.channels ==
                (Round(c.window.width, c.cellSize) - 2) * (Round(c.window.height, c.cellSize) - 2) * 31
  {
    var bv := ZhuRamananBlocks(c.window.height, c.cellSize);
    var bh := ZhuRamananBlocks(c.window.width, c.cellSize);
    RoundAtLeastThree(c.window.height, c.cellSize);
    RoundAtLeastThree(c.window.width, c.cellSize);
    assert bv * bh * 31 == bh * bv * 31;
    if bv >= 1 && bh >= 1 {
      MulPositive(bv, bh);
    }
  }

  /** The test's window range (at least three cells per side) always gives a
      non-empty Zhu-Ramanan descriptor. */
  lemma ZhuRamananTestWindows(image: Shape, c: HogConfig)
    requires ValidHog(c) && c.algorithm == ZhuRamanan
    requires c.window.width >= 3 * c.cellSize && c.window.height >= 3 * c.cellSize
    ensures Hog(image, c).value.channels ==
              (Round(c.window.width, c.cellSize) - 2) * (Round(c.window.height, c.cellSize) - 2) * 31 > 0
  {
    ZhuRamananChannels(image, c);
  }
}
