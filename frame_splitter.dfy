/**
 * Angular splitting of a panoramic frame (insta_cam_module/utils/frame_splitter.py).
 *
 * Degrees and fields of view are whole numbers of degrees, so
 * `int(width * deg / 360)` is the truncating division of two integers.
 */
module FrameSplitter {
  import opened Frames
  import opened Arith

  /**
   * Python's `int(a / b)` for integers `a` and `b > 0`: the quotient rounded
   * toward zero, so `|q|` is the largest multiple count of `b` within `|a|`
   * and `q` has the sign of `a`.
   */
  function TruncDiv(a: int, b: int): (q: int)
    requires b > 0
    ensures var aa, qq := (if a < 0 then -a else a), (if q < 0 then -q else q);
      b * qq <= aa < b * qq + b
    ensures (a >= 0 ==> q >= 0) && (a < 0 ==> q <= 0)
  {
    var aa := if a < 0 then -a else a;
    QuotientBrackets(aa, b);
    if a >= 0 then aa / b else -(aa / b)
  }

  /** `fov_px = int(width * fov_deg / 360)`. */
  function FovPixels(width: nat, fovDeg: int): int {
    TruncDiv(width * fovDeg, 360)
  }

  /** `half = fov_px // 2` (Python's `//` floors, as Dafny's `/` does for a positive divisor). */
  function HalfWindow(width: nat, fovDeg: int): int {
    FovPixels(width, fovDeg) / 2
  }

  /** `center_px = int(width * deg / 360) + width`: a column of the middle copy. */
  function CenterColumn(width: nat, deg: int): int {
    TruncDiv(width * deg, 360) + width
  }

  function WindowStart(width: nat, deg: int, fovDeg: int): int {
    CenterColumn(width, deg) - HalfWindow(width, fovDeg)
  }

  function WindowEnd(width: nat, deg: int, fovDeg: int): int {
    CenterColumn(width, deg) + HalfWindow(width, fovDeg)
  }

  /** The guard under which a zero buffer replaces the slice. */
  predicate Degenerate(width: nat, deg: int, fovDeg: int) {
    var start, end := WindowStart(width, deg, fovDeg), WindowEnd(width, deg, fovDeg);
    end > 3 * width || start < 0 || end - start <= 0
  }

  function Max(a: int, b: int): int {
    if a >= b then a else b
  }

  /** `np.concatenate([frame, frame, frame], axis=1)`. */
  function Triple(f: Image): (t: seq<Column>)
    ensures |t| == 3 * f.Width()
  {
    f.cols + f.cols + f.cols
  }

  /** The region centred on `deg` degrees, or the zero buffer that replaces it. */
  function Region(f: Image, deg: int, fovDeg: int): (r: Image)
    ensures r.height == f.height && r.channels == f.channels
    ensures f.Valid() ==> r.Valid()
  {
    var w := f.Width();
    var start, end := WindowStart(w, deg, fovDeg), WindowEnd(w, deg, fovDeg);
    if Degenerate(w, deg, fovDeg) then
      Zeros(f.height, Max(1, end - start), f.channels)
    else
      Image(f.height, f.channels, Triple(f)[start..end])
  }

  /** `split_frame_by_centers`: one region per centre, in the order of the centres. */
  function SplitByCenters(f: Image, centersDeg: seq<int>, fovDeg: int): (regions: seq<Image>)
    ensures |regions| == |centersDeg|
    ensures forall i :: 0 <= i < |centersDeg| ==> regions[i] == Region(f, centersDeg[i], fovDeg)
    ensures f.Valid() ==> forall i :: 0 <= i < |regions| ==> regions[i].Valid() && regions[i].height == f.height
  {
    if centersDeg == [] then []
    else [Region(f, centersDeg[0], fovDeg)] + SplitByCenters(f, centersDeg[1..], fovDeg)
  }

  const SixCenters: seq<int> := [0, 60, 120, 180, 240, 300]

  /** `split_frame_six_regions`: six regions centred every 60 degrees. */
  function SplitSixRegions(f: Image, fovDeg: int := 120): (regions: seq<Image>)
    ensures |regions| == 6
    ensures forall i :: 0 <= i < 6 ==> regions[i] == Region(f, 60 * i, fovDeg)
  {
    assert forall i :: 0 <= i < 6 ==> SixCenters[i] == 60 * i;
    SplitByCenters(f, SixCenters, fovDeg)
  }

  /** For `0 <= fov <= 360`, the window is at most the frame's width. */
  lemma FovPixelsBounds(width: nat, fovDeg: int)
    requires 0 <= fovDeg <= 360
    ensures 0 <= FovPixels(width, fovDeg) <= width
  {
    if fovDeg < 360 && width > 0 {
      ScaledIndexBelow(fovDeg, 360, width);
      assert width * fovDeg == fovDeg * width;
    }
  }

  /** For `0 <= deg < 360`, the centre lies in the middle copy. */
  lemma CenterInMiddleCopy(width: nat, deg: int)
    requires width > 0 && 0 <= deg < 360
    ensures width <= CenterColumn(width, deg) < 2 * width
  {
    ScaledIndexBelow(deg, 360, width);
    assert width * deg == deg * width;
  }

  /**
   * Wraparound needs no out-of-range access: for a centre in [0, 360) and a
   * field of view in [0, 360], the window lies inside the tripled frame, and it
   * is degenerate exactly when the half-window is empty.
   */
  lemma WindowInsideTriple(width: nat, deg: int, fovDeg: int)
    requires width > 0 && 0 <= deg < 360 && 0 <= fovDeg <= 360
    ensures 0 <= WindowStart(width, deg, fovDeg)
    ensures WindowEnd(width, deg, fovDeg) <= 3 * width
    ensures WindowEnd(width, deg, fovDeg) - WindowStart(width, deg, fovDeg) == 2 * HalfWindow(width, fovDeg)
    ensures Degenerate(width, deg, fovDeg) <==> HalfWindow(width, fovDeg) == 0
  {
    FovPixelsBounds(width, fovDeg);
    CenterInMiddleCopy(width, deg);
  }

  /** Column `k` of the tripled frame is column `k mod width` of the frame. */
  lemma TripleAt(f: Image, k: int)
    requires 0 <= k < 3 * f.Width()
    ensures Triple(f)[k] == f.cols[k % f.Width()]
  {
    var w := f.Width();
    var c := f.cols;
    assert Triple(f) == c + c + c;
    if k < w {
      ModOfOffset(k, w, 0);
      assert (c + c + c)[k] == c[k];
    } else if k < 2 * w {
      ModOfOffset(k, w, 1);
      assert (c + c + c)[k] == c[k - w];
    } else {
      ModOfOffset(k, w, 2);
      assert (c + c + c)[k] == c[k - 2 * w];
    }
  }

  /**
   * The wraparound correspondence: a region centred anywhere in [0, 360) is
   * `2 * half` consecutive columns of the frame, read modulo the width.
   */
  lemma RegionWrapsAround(f: Image, deg: int, fovDeg: int)
    requires f.Width() > 0 && 0 <= deg < 360 && 0 <= fovDeg <= 360
    requires HalfWindow(f.Width(), fovDeg) > 0
    ensures Region(f, deg, fovDeg).Width() == 2 * HalfWindow(f.Width(), fovDeg)
    ensures forall c :: 0 <= c < 2 * HalfWindow(f.Width(), fovDeg) ==>
      Region(f, deg, fovDeg).cols[c] == f.cols[(WindowStart(f.Width(), deg, fovDeg) + c) % f.Width()]
  {
    var w := f.Width();
    WindowInsideTriple(w, deg, fovDeg);
    var start := WindowStart(w, deg, fovDeg);
    var r := Region(f, deg, fovDeg);
    assert r.cols == Triple(f)[start..WindowEnd(w, deg, fovDeg)];
    forall c | 0 <= c < 2 * HalfWindow(w, fovDeg)
      ensures r.cols[c] == f.cols[(start + c) % w]
    {
      TripleAt(f, start + c);
    }
  }

  /**
   * A degenerate window yields a zero buffer of the frame's height and
   * channel count, at least one column wide, instead of raising.
   */
  lemma DegenerateRegionIsBlack(f: Image, deg: int, fovDeg: int)
    requires Degenerate(f.Width(), deg, fovDeg)
    ensures var r := Region(f, deg, fovDeg);
      r.Valid() && IsBlack(r) && r.height == f.height && r.channels == f.channels &&
      r.Width() == Max(1, WindowEnd(f.Width(), deg, fovDeg) - WindowStart(f.Width(), deg, fovDeg)) &&
      r.Width() >= 1
  {
  }

  /** A 360-column frame split six ways at 120 degrees gives six 120-column regions. */
  lemma SixWayOn360Columns(f: Image)
    requires f.Width() == 360
    ensures forall r <- SplitSixRegions(f, 120) :: r.Width() == 120
  {
    forall i | 0 <= i < 6
      ensures Region(f, 60 * i, 120).Width() == 120
    {
      assert HalfWindow(360, 120) == 60;
      RegionWrapsAround(f, 60 * i, 120);
    }
  }

  /** A 360-column frame split at 0 and 180 degrees with a 180-degree view gives two 180-column regions. */
  lemma TwoWayOn360Columns(f: Image)
    requires f.Width() == 360
    ensures forall r <- SplitByCenters(f, [0, 180], 180) :: r.Width() == 180
  {
    assert HalfWindow(360, 180) == 90;
    RegionWrapsAround(f, 0, 180);
    RegionWrapsAround(f, 180, 180);
  }
}
