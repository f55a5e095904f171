/**
 * Frames as the capture and the splitter see them: a numpy array of shape
 * (height, width, channels), held here column by column so that horizontal
 * slicing and concatenation are sequence operations.
 */
module Frames {
  import opened Arith

  /** One pixel: one value per channel. */
  type Pixel = seq<int>

  /** One column of pixels, top to bottom. */
  type Column = seq<Pixel>

  /** A frame or region; column `x`, row `y` is `cols[x][y]`. */
  datatype Image = Image(height: nat, channels: nat, cols: seq<Column>) {

    function Width(): nat {
      |cols|
    }

    /** The array really has shape (height, Width(), channels). */
    predicate Valid() {
      forall x :: 0 <= x < |cols| ==>
        |cols[x]| == height && forall y :: 0 <= y < |cols[x]| ==> |cols[x][y]| == channels
    }
  }

  function ZeroPixel(channels: nat): (p: Pixel)
    ensures |p| == channels && forall c :: 0 <= c < channels ==> p[c] == 0
  {
    seq(channels, _ => 0)
  }

  function ZeroColumn(height: nat, channels: nat): (col: Column)
    ensures |col| == height && forall y :: 0 <= y < height ==> col[y] == ZeroPixel(channels)
  {
    seq(height, _ => ZeroPixel(channels))
  }

  /** Every pixel of `img` is zero in every channel. */
  predicate IsBlack(img: Image) {
    forall x, y :: 0 <= x < |img.cols| && 0 <= y < |img.cols[x]| ==>
      img.cols[x][y] == ZeroPixel(img.channels)
  }

  /** `np.zeros((height, width, channels))`. */
  function Zeros(height: nat, width: nat, channels: nat): (img: Image)
    ensures img.Valid() && IsBlack(img)
    ensures img.height == height && img.Width() == width && img.channels == channels
  {
    Image(height, channels, seq(width, _ => ZeroColumn(height, channels)))
  }

  /** Index of the source element sampled for output element `i` of `n`, in a source of `m`. */
  function SampleIndex(i: nat, n: nat, m: nat): (k: nat)
    requires i < n && 0 < m
    ensures k < m
  {
    ScaledIndexBelow(i, n, m);
    i * m / n
  }

  /** Nearest-neighbour resampling of one column (or row) of `ch`-channel pixels to length `n`. */
  function Resample(col: Column, n: nat, ch: nat): (r: Column)
    requires |col| > 0 && forall k :: 0 <= k < |col| ==> |col[k]| == ch
    ensures |r| == n
    ensures forall y :: 0 <= y < n ==> r[y] == col[SampleIndex(y, n, |col|)] && |r[y]| == ch
  {
    seq(n, y requires 0 <= y < n => col[SampleIndex(y, n, |col|)])
  }

  /**
   * A stand-in for `cv2.resize(img, (newWidth, newHeight))`: nearest-neighbour
   * sampling. The shape of the result is cv2's; its pixels are the
   * stand-in's, so statements about the contents of a resized block hold of
   * the stand-in only. The pixel fact that carries over to cv2 under every
   * interpolation is `ResizeKeepsBlack`: black stays black.
   */
  function Resize(img: Image, newWidth: nat, newHeight: nat): (r: Image)
    requires img.Valid() && img.Width() > 0 && img.height > 0
    ensures r.Valid()
    ensures r.height == newHeight && r.Width() == newWidth && r.channels == img.channels
    ensures forall x :: 0 <= x < newWidth ==>
      r.cols[x] == Resample(img.cols[SampleIndex(x, newWidth, img.Width())], newHeight, img.channels)
  {
    Image(newHeight, img.channels,
      seq(newWidth, x requires 0 <= x < newWidth =>
        Resample(img.cols[SampleIndex(x, newWidth, img.Width())], newHeight, img.channels)))
  }

  /** Resizing an all-black image gives an all-black image. */
  lemma ResizeKeepsBlack(img: Image, newWidth: nat, newHeight: nat)
    requires img.Valid() && img.Width() > 0 && img.height > 0 && IsBlack(img)
    ensures IsBlack(Resize(img, newWidth, newHeight))
  {
    var r := Resize(img, newWidth, newHeight);
    forall x, y | 0 <= x < |r.cols| && 0 <= y < |r.cols[x]|
      ensures r.cols[x][y] == ZeroPixel(r.channels)
    {
      var sx := SampleIndex(x, newWidth, img.Width());
      var sy := SampleIndex(y, newHeight, img.height);
      assert r.cols[x][y] == img.cols[sx][sy];
    }
  }

  /** What one `capture.read()` gives: a frame, `ret == False`, or an exception. */
  datatype ReadOutcome = Grabbed(frame: Image) | NoFrame | ReadRaised(message: string)
}
