/**
 * The distribution side (src/insta360cam/ui/ui_worker.py): the split-mode
 * table, letterboxing of each slice into a 320x240 canvas, one tick of
 * `FrameProcessWorker.run`, and the `UIWorker` facade.
 *
 * `cv2.resize` is the nearest-neighbour stand-in `Frames.Resize`; its scale
 * factor is computed exactly, as a ratio of integers.
 */
module UiWorker {
  import opened Wrappers
  import opened Http
  import opened Arith
  import opened Frames
  import opened FrameSplitter
  import FrameReceiving

  const SlotWidth: nat := 320
  const SlotHeight: nat := 240
  const FullWidth: nat := 900
  const FullHeight: nat := 400

  /** The centres and field of view a split mode selects. */
  datatype SplitGeometry = SplitGeometry(centersDeg: seq<int>, fovDeg: int)

  /** The mode table of `run`; any string other than the three names falls back to six-way. */
  function Geometry(mode: string): SplitGeometry {
    if mode == "six" then SplitGeometry([0, 60, 120, 180, 240, 300], 120)
    else if mode == "three" then SplitGeometry([0, 120, 240], 120)
    else if mode == "two" then SplitGeometry([0, 180], 180)
    else SplitGeometry([0, 60, 120, 180, 240, 300], 120)
  }

  /**
   * Every mode, known or not, selects centres in [0, 360) and a field of
   * view in [0, 360], so the splitter's wraparound guarantees apply; an
   * unknown mode selects exactly the six-way geometry.
   */
  lemma GeometryInRange(mode: string)
    ensures var g := Geometry(mode);
      && (forall c <- g.centersDeg :: 0 <= c < 360)
      && 0 <= g.fovDeg <= 360
      && |g.centersDeg| in {2, 3, 6}
      && (mode != "three" && mode != "two" ==> g == Geometry("six"))
  {
  }

  /** A 2-D size, width first as `cv2.resize` takes it. */
  datatype Size = Size(width: nat, height: nat)

  /**
   * `new_w, new_h = int(w * scale), int(h * scale)` with
   * `scale = min(target_w / w, target_h / h)`, computed exactly.
   */
  function ScaledSize(w: nat, h: nat, targetW: nat, targetH: nat): (s: Size)
    requires w > 0 && h > 0
    ensures s.width <= targetW && s.height <= targetH
    ensures s.width == targetW || s.height == targetH
  {
    if targetW * h <= targetH * w then
      CrossQuotientWithin(targetW, h, targetH, w);
      Size(targetW, h * targetW / w)
    else
      CrossQuotientWithin(targetH, w, targetW, h);
      Size(w * targetH / h, targetH)
  }

  /** `scale = min(target_w / w, target_h / h)`, on exact reals. */
  function Scale(w: nat, h: nat, targetW: nat, targetH: nat): real
    requires w > 0 && h > 0
  {
    var kw, kh := targetW as real / w as real, targetH as real / h as real;
    if kw <= kh then kw else kh
  }

  /**
   * The scaled size is `(int(w * scale), int(h * scale))` for the smaller of
   * the two ratios, so the aspect ratio is kept up to truncation.
   */
  lemma ScaledSizeIsFloorOfScale(w: nat, h: nat, targetW: nat, targetH: nat)
    requires w > 0 && h > 0
    ensures var s, k := ScaledSize(w, h, targetW, targetH), Scale(w, h, targetW, targetH);
      s.width == (w as real * k).Floor && s.height == (h as real * k).Floor
  {
    RatioCompare(targetW, w, targetH, h);
    if targetW * h <= targetH * w {
      ScaledFloors(w, h, targetW);
    } else {
      ScaledFloors(h, w, targetH);
    }
  }

  /** `(target - new) // 2`. */
  function Offset(target: nat, size: nat): (o: nat)
    requires size <= target
    ensures o + size <= target
  {
    (target - size) / 2
  }

  /** Column `x` of the canvas once `resized` has been pasted at (`xo`, `yo`). */
  function PaddedColumn(resized: Image, x: int, xo: nat, yo: nat, targetH: nat): Column
    requires yo + resized.height <= targetH
  {
    if xo <= x < xo + resized.Width() then
      ZeroColumn(yo, 3) + resized.cols[x - xo] + ZeroColumn(targetH - yo - resized.height, 3)
    else ZeroColumn(targetH, 3)
  }

  /**
   * The canvas of `resize_and_pad` once `resized` is pasted: a zero
   * `target_h` by `target_w` by 3 array with `resized` at the centring offsets.
   */
  function Pasted(resized: Image, targetW: nat, targetH: nat): Image
    requires resized.Width() <= targetW && resized.height <= targetH
  {
    var xo, yo := Offset(targetW, resized.Width()), Offset(targetH, resized.height);
    Image(targetH, 3, seq(targetW, x => PaddedColumn(resized, x, xo, yo, targetH)))
  }

  /**
   * `resize_and_pad(img, target_w, target_h)`: raises `ZeroDivisionError` on
   * an empty side, `cv2.error` when a scaled side rounds down to zero, and a
   * broadcast `ValueError` when the image does not have 3 channels; otherwise
   * the resized image centred on a black canvas.
   */
  function Letterboxed(img: Image, targetW: nat, targetH: nat): Result<Image, Exc>
    requires img.Valid()
  {
    if img.Width() == 0 || img.height == 0 then Err(Exc(ZeroDivisionError, "division by zero"))
    else
      var s := ScaledSize(img.Width(), img.height, targetW, targetH);
      if s.width == 0 || s.height == 0 then Err(Exc(OpenCVError, "resize to an empty size"))
      else if img.channels != 3 then Err(Exc(ValueError, "could not broadcast input array"))
      else Ok(Pasted(Resize(img, s.width, s.height), targetW, targetH))
  }

  /** `resize_and_pad` succeeds exactly when both sides are non-empty before and after scaling and there are 3 channels. */
  lemma LetterboxSucceedsIff(img: Image, targetW: nat, targetH: nat)
    requires img.Valid()
    ensures Letterboxed(img, targetW, targetH).Ok? <==>
      && img.Width() > 0 && img.height > 0 && img.channels == 3
      && ScaledSize(img.Width(), img.height, targetW, targetH).width > 0
      && ScaledSize(img.Width(), img.height, targetW, targetH).height > 0
  {
  }

  /**
   * The pasted canvas: `target_h` by `target_w` by 3; `resized` fills the
   * block at the centring offsets, and every pixel outside it is zero.
   */
  lemma PastedCanvas(resized: Image, targetW: nat, targetH: nat)
    requires resized.Valid() && resized.channels == 3
    requires resized.Width() <= targetW && resized.height <= targetH
    ensures var c := Pasted(resized, targetW, targetH);
      var xo, yo := Offset(targetW, resized.Width()), Offset(targetH, resized.height);
      && c.Valid() && c.Width() == targetW && c.height == targetH && c.channels == 3
      && forall x, y :: 0 <= x < targetW && 0 <= y < targetH ==>
           c.cols[x][y] ==
             if xo <= x < xo + resized.Width() && yo <= y < yo + resized.height
             then resized.cols[x - xo][y - yo]
             else ZeroPixel(3)
  {
    var c := Pasted(resized, targetW, targetH);
    var xo, yo := Offset(targetW, resized.Width()), Offset(targetH, resized.height);
    forall x, y | 0 <= x < targetW && 0 <= y < targetH
      ensures |c.cols[x]| == targetH
      ensures c.cols[x][y] ==
             if xo <= x < xo + resized.Width() && yo <= y < yo + resized.height
             then resized.cols[x - xo][y - yo]
             else ZeroPixel(3)
    {
      assert c.cols[x] == PaddedColumn(resized, x, xo, yo, targetH);
      PaddedColumnAt(resized, x, xo, yo, targetH, y);
    }
  }

  /** Row `y` of a padded column: the image's pixel inside the block, zero outside it. */
  lemma PaddedColumnAt(resized: Image, x: int, xo: nat, yo: nat, targetH: nat, y: int)
    requires resized.Valid() && yo + resized.height <= targetH && 0 <= y < targetH
    ensures |PaddedColumn(resized, x, xo, yo, targetH)| == targetH
    ensures PaddedColumn(resized, x, xo, yo, targetH)[y] ==
      if xo <= x < xo + resized.Width() && yo <= y < yo + resized.height
      then resized.cols[x - xo][y - yo]
      else ZeroPixel(3)
  {
    if xo <= x < xo + resized.Width() {
      var mid := resized.cols[x - xo];
      assert |mid| == resized.height;
      var top, bottom := ZeroColumn(yo, 3), ZeroColumn(targetH - yo - resized.height, 3);
      assert PaddedColumn(resized, x, xo, yo, targetH) == top + mid + bottom;
      if y < yo {
        assert (top + mid + bottom)[y] == top[y];
      } else if y < yo + resized.height {
        assert (top + mid + bottom)[y] == mid[y - yo];
      } else {
        assert (top + mid + bottom)[y] == bottom[y - yo - resized.height];
      }
    }
  }

  /**
   * The letterboxed canvas: `target_h` by `target_w` by 3; the resized image
   * fills the block at the centring offsets, which lies inside the canvas,
   * and every pixel outside that block is zero.
   */
  lemma LetterboxedCanvas(img: Image, targetW: nat, targetH: nat)
    requires img.Valid() && Letterboxed(img, targetW, targetH).Ok?
    ensures var c := Letterboxed(img, targetW, targetH).value;
      var s := ScaledSize(img.Width(), img.height, targetW, targetH);
      var xo, yo := Offset(targetW, s.width), Offset(targetH, s.height);
      && c.Valid() && c.Width() == targetW && c.height == targetH && c.channels == 3
      && xo + s.width <= targetW && yo + s.height <= targetH
      && forall x, y :: 0 <= x < targetW && 0 <= y < targetH ==>
           c.cols[x][y] ==
             if xo <= x < xo + s.width && yo <= y < yo + s.height
             then Resize(img, s.width, s.height).cols[x - xo][y - yo]
             else ZeroPixel(3)
  {
    var s := ScaledSize(img.Width(), img.height, targetW, targetH);
    var r := Resize(img, s.width, s.height);
    assert r.Width() == s.width && r.height == s.height;
    assert Letterboxed(img, targetW, targetH).value == Pasted(r, targetW, targetH);
    PastedCanvas(r, targetW, targetH);
  }

  /**
   * `resize_and_pad` as the source runs it: the scaled size, the resize, then
   * the paste onto a zero canvas.
   */
  method ResizeAndPad(img: Image, targetW: nat := 320, targetH: nat := 240) returns (r: Result<Image, Exc>)
    requires img.Valid()
    ensures r == Letterboxed(img, targetW, targetH)
  {
    var h, w := img.height, img.Width();
    if w == 0 || h == 0 {
      return Err(Exc(ZeroDivisionError, "division by zero"));
    }
    var s := ScaledSize(w, h, targetW, targetH);
    if s.width == 0 || s.height == 0 {
      return Err(Exc(OpenCVError, "resize to an empty size"));
    }
    var resized := Resize(img, s.width, s.height);
    if img.channels != 3 {
      return Err(Exc(ValueError, "could not broadcast input array"));
    }
    var canvas := PasteCentered(resized, targetW, targetH);
    r := Ok(canvas);
  }

  /**
   * `canvas = np.zeros(...)` followed by the slice assignment of `resized` at
   * the centring offsets, written out column by column.
   */
  method PasteCentered(resized: Image, targetW: nat, targetH: nat) returns (c: Image)
    requires resized.Valid() && resized.Width() <= targetW && resized.height <= targetH
    ensures c == Pasted(resized, targetW, targetH)
  {
    var yo, xo := Offset(targetH, resized.height), Offset(targetW, resized.Width());
    var canvas := new Column[targetW](_ => ZeroColumn(targetH, 3));
    for x := xo to xo + resized.Width()
      invariant forall k :: 0 <= k < targetW && !(xo <= k < x) ==> canvas[k] == ZeroColumn(targetH, 3)
      invariant forall k :: xo <= k < x ==> canvas[k] == PaddedColumn(resized, k, xo, yo, targetH)
    {
      var col := canvas[x];
      PasteIntoZeroColumn(resized, x, xo, yo, targetH);
      var pasted := col[..yo] + resized.cols[x - xo] + col[yo + resized.height..];
      assert pasted == PaddedColumn(resized, x, xo, yo, targetH);
      canvas[x] := pasted;
    }
    c := Image(targetH, 3, canvas[..]);
    forall k | 0 <= k < targetW
      ensures canvas[k] == PaddedColumn(resized, k, xo, yo, targetH)
    {
      if !(xo <= k < xo + resized.Width()) {
        assert canvas[k] == ZeroColumn(targetH, 3);
      }
    }
    assert canvas[..] == seq(targetW, x => PaddedColumn(resized, x, xo, yo, targetH));
  }

  /** Overwriting rows `yo ..` of a zero column with a column of `resized` gives the padded column. */
  lemma PasteIntoZeroColumn(resized: Image, x: int, xo: nat, yo: nat, targetH: nat)
    requires yo + resized.height <= targetH && xo <= x < xo + resized.Width()
    ensures var col := ZeroColumn(targetH, 3);
      col[..yo] + resized.cols[x - xo] + col[yo + resized.height..] == PaddedColumn(resized, x, xo, yo, targetH)
  {
    var col := ZeroColumn(targetH, 3);
    assert col[..yo] == ZeroColumn(yo, 3);
    assert col[yo + resized.height..] == ZeroColumn(targetH - yo - resized.height, 3);
  }

  /** A black 240x320x3 image (`np.zeros((240, 320, 3))`). */
  function BlackSlot(): (img: Image)
    ensures img.Valid() && IsBlack(img)
    ensures img.Width() == SlotWidth && img.height == SlotHeight && img.channels == 3
  {
    Zeros(SlotHeight, SlotWidth, 3)
  }

  /**
   * One iteration of the slice loop of `run`: an empty slice is replaced by a
   * black image, and a slice whose letterboxing raises becomes a black canvas.
   * Every outcome is a 320x240x3 canvas.
   */
  function ProcessSlice(slice: Image): (canvas: Image)
    requires slice.Valid()
    ensures canvas.Valid() && canvas.Width() == SlotWidth && canvas.height == SlotHeight && canvas.channels == 3
  {
    var img := if slice.height == 0 || slice.Width() == 0 then BlackSlot() else slice;
    match Letterboxed(img, SlotWidth, SlotHeight)
    case Ok(c) =>
      LetterboxedCanvas(img, SlotWidth, SlotHeight);
      c
    case Err(_) => BlackSlot()
  }

  /** The slice loop of `run`: one canvas per slice, in order. */
  function ProcessAll(slices: seq<Image>): (canvases: seq<Image>)
    requires forall i :: 0 <= i < |slices| ==> slices[i].Valid()
  {
    seq(|slices|, i requires 0 <= i < |slices| => ProcessSlice(slices[i]))
  }

  /** The body of the slice loop of `run`, as the source runs it. */
  method PadSlice(slice: Image) returns (canvas: Image)
    requires slice.Valid()
    ensures canvas == ProcessSlice(slice)
  {
    var img := slice;
    if img.height == 0 || img.Width() == 0 {
      img := BlackSlot();
    }
    var padded := ResizeAndPad(img, SlotWidth, SlotHeight);
    canvas := if padded.Ok? then padded.value else BlackSlot();
  }

  /** The `for slice in slices` loop of a tick, appending one canvas per slice. */
  method PadSlices(slices: seq<Image>) returns (splitArrays: seq<Image>)
    requires forall i :: 0 <= i < |slices| ==> slices[i].Valid()
    ensures splitArrays == ProcessAll(slices)
  {
    splitArrays := [];
    for i := 0 to |slices|
      invariant |splitArrays| == i
      invariant forall k :: 0 <= k < i ==> splitArrays[k] == ProcessSlice(slices[k])
    {
      var canvas := PadSlice(slices[i]);
      splitArrays := splitArrays + [canvas];
    }
  }

  /** What one tick does. */
  datatype TickResult =
    | Skipped                                    // no frame: nothing emitted
    | Emitted(splits: seq<Image>, full: Image)   // `frame_ready.emit(split_np_arrays, full_np_array)`
    | Crashed(error: Exc)                        // `cv2.resize` of the full frame raised; nothing catches it

  /** One tick of `run` under `mode`, given what `get_frame_func()` returned. */
  function TickSpec(mode: string, frame: Option<Image>): TickResult
    requires frame.Some? ==> frame.value.Valid()
  {
    match frame
    case None => Skipped
    case Some(f) =>
      var g := Geometry(mode);
      var slices := SplitByCenters(f, g.centersDeg, g.fovDeg);
      var splits := ProcessAll(slices);
      if f.Width() == 0 || f.height == 0 then Crashed(Exc(OpenCVError, "resize of an empty frame"))
      else Emitted(splits, Resize(f, FullWidth, FullHeight))
  }

  /**
   * A tick emits exactly when there is a non-empty frame; it then emits one
   * 320x240x3 canvas per centre of the mode, in the order of the centres, each
   * the processed slice for that centre, and a 900x400 full view that keeps
   * the frame's channels whatever its aspect ratio.
   */
  lemma TickEmits(mode: string, frame: Option<Image>)
    requires frame.Some? ==> frame.value.Valid()
    ensures TickSpec(mode, frame).Skipped? <==> frame.None?
    ensures TickSpec(mode, frame).Emitted? <==>
      frame.Some? && frame.value.Width() > 0 && frame.value.height > 0
    ensures TickSpec(mode, frame).Emitted? ==>
      var out := TickSpec(mode, frame);
      var g := Geometry(mode);
      && |out.splits| == |g.centersDeg|
      && (forall i :: 0 <= i < |out.splits| ==>
            && out.splits[i] == ProcessSlice(Region(frame.value, g.centersDeg[i], g.fovDeg))
            && out.splits[i].Width() == SlotWidth && out.splits[i].height == SlotHeight
            && out.splits[i].channels == 3)
      && out.full.Width() == FullWidth && out.full.height == FullHeight
      && out.full.channels == frame.value.channels
  {
  }

  /** An empty slice is drawn as an all-black canvas. */
  lemma EmptySliceIsBlack(slice: Image)
    requires slice.Valid() && (slice.height == 0 || slice.Width() == 0)
    ensures ProcessSlice(slice) == BlackSlot()
  {
    var b := BlackSlot();
    assert Letterboxed(b, SlotWidth, SlotHeight).Ok?;
    var c := Letterboxed(b, SlotWidth, SlotHeight).value;
    LetterboxedCanvas(b, SlotWidth, SlotHeight);
    assert ScaledSize(SlotWidth, SlotHeight, SlotWidth, SlotHeight) == Size(SlotWidth, SlotHeight);
    ResizeKeepsBlack(b, SlotWidth, SlotHeight);
    forall x | 0 <= x < SlotWidth
      ensures c.cols[x] == b.cols[x]
    {
      forall y | 0 <= y < SlotHeight
        ensures c.cols[x][y] == b.cols[x][y]
      {
        assert c.cols[x][y] == ZeroPixel(3);
      }
    }
  }

  /**
   * A black slice, including the one-column zero buffer the splitter returns
   * for a degenerate window, is drawn as an all-black canvas of the slot size.
   */
  lemma BlackSliceGivesBlackCanvas(slice: Image)
    requires slice.Valid() && IsBlack(slice)
    ensures IsBlack(ProcessSlice(slice))
  {
    var img := if slice.height == 0 || slice.Width() == 0 then BlackSlot() else slice;
    match Letterboxed(img, SlotWidth, SlotHeight)
    case Ok(c) =>
      LetterboxedCanvas(img, SlotWidth, SlotHeight);
      var s := ScaledSize(img.Width(), img.height, SlotWidth, SlotHeight);
      ResizeKeepsBlack(img, s.width, s.height);
    case Err(_) =>
  }

  /**
   * A malformed centre or field of view does not break the tick: the frame
   * still yields a complete set, and the entry whose window is degenerate is
   * an all-black canvas.
   */
  lemma DegenerateWindowGivesBlackEntry(mode: string, f: Image, i: nat)
    requires f.Valid() && f.Width() > 0 && f.height > 0
    requires i < |Geometry(mode).centersDeg|
    requires Degenerate(f.Width(), Geometry(mode).centersDeg[i], Geometry(mode).fovDeg)
    ensures var out := TickSpec(mode, Some(f));
      && out.Emitted? && |out.splits| == |Geometry(mode).centersDeg|
      && IsBlack(out.splits[i])
      && out.splits[i].Width() == SlotWidth && out.splits[i].height == SlotHeight
  {
    var g := Geometry(mode);
    TickEmits(mode, Some(f));
    DegenerateRegionIsBlack(f, g.centersDeg[i], g.fovDeg);
    BlackSliceGivesBlackCanvas(Region(f, g.centersDeg[i], g.fovDeg));
  }

  /** On a 3-column frame the six-way window is empty, so every entry is black. */
  lemma NarrowFrameGivesBlackEntries(f: Image)
    requires f.Valid() && f.Width() == 3 && f.height > 0
    ensures var out := TickSpec("six", Some(f));
      && out.Emitted? && |out.splits| == 6
      && forall i :: 0 <= i < 6 ==> IsBlack(out.splits[i])
  {
    var g := Geometry("six");
    assert HalfWindow(3, g.fovDeg) == 0;
    forall i | 0 <= i < 6
      ensures IsBlack(TickSpec("six", Some(f)).splits[i])
    {
      DegenerateWindowGivesBlackEntry("six", f, i);
    }
    DegenerateWindowGivesBlackEntry("six", f, 0);
  }

  /** `FrameProcessWorker`: the tick loop's state. */
  class FrameProcessWorker {
    var running: bool
    var splitMode: string

    constructor ()
      ensures !running && splitMode == "six"
    {
      running := false;
      splitMode := "six";
    }

    /** `set_split_mode`: takes effect on the next tick and touches nothing else. */
    method SetSplitMode(mode: string)
      modifies this`splitMode
      ensures splitMode == mode
    {
      splitMode := mode;
    }

    /** The opening of `run`: sets the loop flag; each loop iteration is one `Tick`. */
    method BeginRun()
      modifies this`running
      ensures running
    {
      running := true;
    }

    /** `stop`: clears the loop flag (the join is not modelled). */
    method Stop()
      modifies this`running
      ensures !running
    {
      running := false;
    }

    /** One iteration of the `while self.running` loop, given what `get_frame_func()` returned. */
    method Tick(frame: Option<Image>) returns (out: TickResult)
      requires frame.Some? ==> frame.value.Valid()
      ensures out == TickSpec(splitMode, frame)
    {
      if frame.None? {
        return Skipped;
      }
      var f := frame.value;
      var g := Geometry(splitMode);
      var slices := SplitByCenters(f, g.centersDeg, g.fovDeg);
      var splitArrays := PadSlices(slices);
      if f.Width() == 0 || f.height == 0 {
        return Crashed(Exc(OpenCVError, "resize of an empty frame"));
      }
      out := Emitted(splitArrays, Resize(f, FullWidth, FullHeight));
    }
  }

  /**
   * `UIWorker`. The `InstaWorker` it drives is not part of this model; its
   * frame slot is represented by a `FrameReceiver`.
   */
  class UIWorker {
    var worker: FrameReceiving.FrameReceiver?
    var frameThread: FrameProcessWorker?

    constructor ()
      ensures worker == null && frameThread == null
    {
      worker := null;
      frameThread := null;
    }

    /** `get_latest_frame`: `None` without a worker, else the worker's latest frame. */
    method GetLatestFrame() returns (f: Option<Image>)
      ensures worker == null ==> f.None?
      ensures worker != null ==> f == worker.latestFrame
    {
      if worker == null {
        return None;
      }
      f := worker.GetLatestFrame();
    }

    /** `stop_all`: stops and drops the tick loop, then the worker. */
    method StopAll()
      modifies this, frameThread, worker
      ensures worker == null && frameThread == null
      ensures old(frameThread) != null ==> !old(frameThread).running
      ensures old(worker) != null ==> !old(worker).running && old(worker).capture.None?
      ensures old(frameThread) != null ==> old(frameThread).splitMode == old(frameThread.splitMode)
      ensures old(worker) != null ==>
        && old(worker).latestFrame == old(worker.latestFrame)
        && old(worker).errorLog == old(worker.errorLog)
        && old(worker).hasOnError == old(worker.hasOnError)
    {
      if frameThread != null {
        frameThread.Stop();
        frameThread := null;
      }
      if worker != null {
        worker.Stop();
        worker := null;
      }
    }
  }
}
