# Insta360 panoramic capture core, modelled in Dafny

This project models the core of a Python application that pulls a live
panoramic stream from a networked 360° camera and cuts each frame into
viewports. It covers six parts:

- **Frame splitting** (`FrameSplitter`). The frame is tripled horizontally. Integer degree-to-pixel arithmetic then picks one contiguous column range per centre angle. That is what makes wraparound at 0°/360° work.
- **The distribution tick** (`UiWorker`). A split mode selects the centres and the field of view. Each slice is letterboxed into a 320×240 canvas, and the whole frame is resized to 900×400. Also covered: the `FrameProcessWorker` and `UIWorker` state.
- **The capture loop** (`FrameReceiving`). It counts consecutive failed reads, stops on the 30th and reports once. It also keeps the latest frame.
- **The control plane** (`SignalHandling`, `Heartbeat`, `CameraControl`, `InstaApi`). This covers the FIFO signal queue, the fingerprint handshake and the heartbeat. It also covers the commands gated on a fingerprint, and the config-driven command payload that `send_command` changes in place.
- **The FPS counter** (`DataProcessor`). It counts updates and resets once per second.
- **Shared pieces** (`Wrappers`, `Http`, `Frames`, `Arith`). Option and Result types, JSON values, request and reply records, frames, and arithmetic facts.

Conventions:

- A frame is a numpy array of shape (height, width, channels). Here it is stored as a sequence of columns of pixels.
- HTTP is abstracted. A `Request` record holds url, JSON body, headers and timeout. A `Response` is either a reply (status, reason, body) or a transport failure.
- A capture device is abstracted as the outcomes of its `read()` calls: a frame, no frame, or an exception.
- The clock, the formatted hardware time and the loaded configuration are all parameters.
- Python exceptions become `Err`/`Fail` values that carry the exception class and message.

Behaviour of the code that a reader might not expect, and that the model keeps:

- An unknown split mode does not fail. It falls back to the six-way geometry, and there is no separate "full" mode.
- The 900×400 full view is a plain resize. It does not preserve the aspect ratio.
- The handshake never looks at the status code. A "done" reply without a Fingerprint returns `None` and does not fail.
- A source that cannot be opened raises `RuntimeError`. It also calls `on_error` when one was given.
- A `cv2.resize` failure on the full frame is not caught, so that tick raises and emits nothing.
- `send_command` catches request exceptions, and this includes `raise_for_status`. That call raises for 4xx and 5xx statuses only, not for every non-2xx status.

## Model

| member | source | states |
|---|---|---|
| FrameSplitter.TruncDiv | insta_cam_module/utils/frame_splitter.py:13-17 | `int(a / b)` rounds toward zero: `b·|q| ≤ |a| < b·|q| + b`, and `q` is never of the opposite sign to `a` |
| FrameSplitter.FovPixels | insta_cam_module/utils/frame_splitter.py:13 | `fov_px = int(width * fov_deg / 360)` (bounds in `FovPixelsBounds`) |
| FrameSplitter.HalfWindow | insta_cam_module/utils/frame_splitter.py:14 | `half = fov_px // 2` |
| FrameSplitter.CenterColumn | insta_cam_module/utils/frame_splitter.py:17 | `center_px = int(width * deg / 360) + width` (range in `CenterInMiddleCopy`) |
| FrameSplitter.WindowStart | insta_cam_module/utils/frame_splitter.py:18 | `start = center_px - half` |
| FrameSplitter.WindowEnd | insta_cam_module/utils/frame_splitter.py:19 | `end = center_px + half` |
| FrameSplitter.Degenerate | insta_cam_module/utils/frame_splitter.py:20 | the guard `end > 3·width or start < 0 or end - start <= 0` (for angles in range, it holds exactly when `half` is 0, per `WindowInsideTriple`) |
| FrameSplitter.Triple | insta_cam_module/utils/frame_splitter.py:12 | the tripled frame has three times the frame's columns |
| FrameSplitter.Region | insta_cam_module/utils/frame_splitter.py:17-23 | a region keeps the frame's height and channel count, and is a well-shaped array whenever the frame is |
| FrameSplitter.SplitByCenters | insta_cam_module/utils/frame_splitter.py:15-24 | exactly one region per centre, in the order of the centres, each the region for that centre; all well-shaped with the frame's height |
| FrameSplitter.SplitSixRegions | insta_cam_module/utils/frame_splitter.py:28-30 | six regions, the `i`-th centred at `60·i` degrees, with field of view defaulting to 120 |
| FrameSplitter.FovPixelsBounds | insta_cam_module/utils/frame_splitter.py:13 | for a field of view in [0, 360], `fov_px` lies between 0 and the width |
| FrameSplitter.CenterInMiddleCopy | insta_cam_module/utils/frame_splitter.py:17 | for a centre in [0, 360), `center_px` lies in the middle copy [width, 2·width) |
| FrameSplitter.WindowInsideTriple | insta_cam_module/utils/frame_splitter.py:12-20 | for a centre in [0, 360) and field of view in [0, 360], `start ≥ 0`, `end ≤ 3·width`, the window is `2·half` wide, and it is degenerate exactly when `half` is 0 |
| FrameSplitter.TripleAt | insta_cam_module/utils/frame_splitter.py:12 | column `k` of the tripled frame is frame column `k mod width` |
| FrameSplitter.RegionWrapsAround | insta_cam_module/utils/frame_splitter.py:12-23 | a non-degenerate region is `2·half` columns wide (an odd `fov_px` loses a column), and column `c` of it is frame column `(start + c) mod width` |
| FrameSplitter.DegenerateRegionIsBlack | insta_cam_module/utils/frame_splitter.py:20-21 | a degenerate window gives an all-zero buffer with the frame's height and channels, `max(1, end - start)` columns wide, instead of raising |
| FrameSplitter.SixWayOn360Columns | insta_cam_module/utils/frame_splitter.py:13-19 | on a 360-column frame, six-way splitting at 120 degrees gives six 120-column regions |
| FrameSplitter.TwoWayOn360Columns | insta_cam_module/utils/frame_splitter.py:13-19 | on a 360-column frame, centres 0 and 180 with a 180-degree view give two 180-column regions |
| Frames.Zeros | insta_cam_module/utils/frame_splitter.py:21 | `np.zeros` has the requested shape and every pixel is zero |
| Frames.Resample | src/insta360cam/ui/ui_worker.py:43 | a column resampled to `n` pixels by nearest neighbour: output pixel `y` is the source pixel at the scaled index, with the source's channel count |
| Frames.Resize | src/insta360cam/ui/ui_worker.py:43 | the resized image is well-shaped, with the requested width and height and the source's channel count; each output column is a resampled source column |
| Frames.ResizeKeepsBlack | src/insta360cam/ui/ui_worker.py:43 | resizing an all-black image gives an all-black image |
| UiWorker.Geometry | src/insta360cam/ui/ui_worker.py:53-64 | the mode table: "six" and every unknown mode give centres 0, 60, …, 300 with view 120; "three" gives 0, 120, 240 with 120; "two" gives 0, 180 with 180 |
| UiWorker.GeometryInRange | src/insta360cam/ui/ui_worker.py:53-64 | every mode selects 2, 3 or 6 centres in [0, 360) and a view in [0, 360]; any mode other than "three" and "two" selects the six-way geometry |
| UiWorker.ScaledSize | src/insta360cam/ui/ui_worker.py:41-42 | `new_w ≤ target_w` and `new_h ≤ target_h`, and one of them is met exactly |
| UiWorker.Scale | src/insta360cam/ui/ui_worker.py:41 | `scale = min(target_w / w, target_h / h)` on exact reals |
| UiWorker.ScaledSizeIsFloorOfScale | src/insta360cam/ui/ui_worker.py:41-42 | the scaled size is exactly `(int(w · scale), int(h · scale))` for the smaller ratio, so the aspect ratio is kept up to truncation |
| UiWorker.Offset | src/insta360cam/ui/ui_worker.py:45-46 | the centring offset `(target - new) // 2` is non-negative and leaves room for the pasted block |
| UiWorker.Pasted | src/insta360cam/ui/ui_worker.py:44-47 | the zero canvas with the image written at the centring offsets, built column by column from `PaddedColumn` (one canvas column after the slice assignment); its content is stated in `PastedCanvas` and `PaddedColumnAt` |
| UiWorker.Letterboxed | src/insta360cam/ui/ui_worker.py:39-48 | `resize_and_pad` as a value: `ZeroDivisionError` on an empty side, a cv2 error when a scaled side is 0, a broadcast `ValueError` without 3 channels, otherwise the pasted canvas of the resized image |
| UiWorker.LetterboxSucceedsIff | src/insta360cam/ui/ui_worker.py:39-48 | letterboxing succeeds exactly when both sides are non-empty before and after scaling and the image has 3 channels |
| UiWorker.PastedCanvas | src/insta360cam/ui/ui_worker.py:44-47 | pasting a 3-channel image no larger than the target gives a target_h × target_w × 3 canvas holding the image in the centred block and zero everywhere else |
| UiWorker.PaddedColumnAt | src/insta360cam/ui/ui_worker.py:44-47 | one canvas column after the paste has the canvas height, holds the resized pixel inside the pasted window and zero outside it |
| UiWorker.LetterboxedCanvas | src/insta360cam/ui/ui_worker.py:44-47 | the canvas is target_h × target_w × 3; the resized image fills the centred block, which lies inside the canvas; every other pixel is zero |
| UiWorker.ResizeAndPad | src/insta360cam/ui/ui_worker.py:39-48 | the size computation, the resize and the paste give exactly the letterboxed result, or the same exception |
| UiWorker.PasteCentered | src/insta360cam/ui/ui_worker.py:44-47 | writing the image into a zero canvas one column at a time, as a slice assignment, yields the pasted canvas |
| UiWorker.BlackSlot | src/insta360cam/ui/ui_worker.py:70 | the replacement image is all black and 240 × 320 × 3 |
| UiWorker.ProcessSlice | src/insta360cam/ui/ui_worker.py:67-75 | every slice, whether padded, empty or failing, becomes a 240 × 320 × 3 canvas |
| UiWorker.PadSlice | src/insta360cam/ui/ui_worker.py:68-75 | the loop body (black substitution, resize-and-pad, black on exception) computes the processed slice |
| UiWorker.ProcessAll | src/insta360cam/ui/ui_worker.py:66-75 | the list of processed canvases, one per slice in order |
| UiWorker.PadSlices | src/insta360cam/ui/ui_worker.py:66-75 | the loop over the slices appends one processed canvas per slice, in order |
| UiWorker.TickSpec | src/insta360cam/ui/ui_worker.py:50-77 | one tick as a value: skipped without a frame; otherwise the split by the mode's geometry, each slice processed, then the full view, whose resize raises on an empty frame |
| UiWorker.TickEmits | src/insta360cam/ui/ui_worker.py:50-77 | no frame: nothing emitted; an empty frame: the full-view resize raises, so nothing is emitted; a non-empty frame: one 240 × 320 × 3 canvas per centre of the mode, in order, each the processed region for that centre, plus a 900 × 400 full view whatever the aspect ratio |
| UiWorker.EmptySliceIsBlack | src/insta360cam/ui/ui_worker.py:69-72 | an empty slice ends up as an all-black 240 × 320 × 3 canvas |
| UiWorker.BlackSliceGivesBlackCanvas | src/insta360cam/ui/ui_worker.py:67-75 | a black slice, such as the one-column zero buffer of a degenerate window, is drawn as an all-black canvas, whether the letterbox succeeds or falls back to the black slot |
| UiWorker.DegenerateWindowGivesBlackEntry | src/insta360cam/ui/ui_worker.py:65-77 | a centre whose window is degenerate still lets a non-empty frame emit a complete set, and that entry is an all-black 320 × 240 canvas |
| UiWorker.NarrowFrameGivesBlackEntries | insta_cam_module/utils/frame_splitter.py:13-21 | on a 3-column frame the six-way half-window is 0, so the tick emits six entries and every one is black |
| UiWorker.FrameProcessWorker.constructor | src/insta360cam/ui/ui_worker.py:27-31 | a new worker is not running and starts in "six" mode |
| UiWorker.FrameProcessWorker.SetSplitMode | src/insta360cam/ui/ui_worker.py:33-34 | sets the split mode and changes nothing else |
| UiWorker.FrameProcessWorker.BeginRun | src/insta360cam/ui/ui_worker.py:38 | the opening of `run` sets the loop flag and changes nothing else; each iteration of the loop is one `Tick` |
| UiWorker.FrameProcessWorker.Stop | src/insta360cam/ui/ui_worker.py:80-82 | clears the running flag and changes nothing else |
| UiWorker.FrameProcessWorker.Tick | src/insta360cam/ui/ui_worker.py:50-78 | one iteration of the loop, with per-slice append, produces exactly the tick result for the current mode |
| UiWorker.UIWorker.constructor | src/insta360cam/ui/ui_worker.py:86-90 | a new facade has no worker and no tick thread |
| UiWorker.UIWorker.GetLatestFrame | src/insta360cam/ui/ui_worker.py:106-109 | `None` without a worker, otherwise the worker's latest frame |
| UiWorker.UIWorker.StopAll | src/insta360cam/ui/ui_worker.py:111-117 | stops the tick thread and the worker when present, and drops both; the thread's mode and the worker's latest frame, callback and reports are left as they were |
| FrameReceiving.Reported | insta_cam_module/utils/frame_receiver.py:47-48 | `on_error` is called once with the message when given, and never otherwise |
| FrameReceiving.Drive | insta_cam_module/utils/frame_receiver.py:26-55 | the loop as a value over the remaining read outcomes: a grab stores the frame and resets the count; a failure counts and stops at 30 with the "Stream error" report; an exception stops with the "Stream exception" report (characterised in `DriveCharacterized`) |
| FrameReceiving.DriveCharacterized | insta_cam_module/utils/frame_receiver.py:26-55 | the loop reads until the first read that raises or makes the 30th failure in a row, and never stops earlier; it stays running only if the reads run out first; it reports exactly once on stopping; the latest frame is the last one grabbed |
| FrameReceiving.DriveStops | insta_cam_module/utils/frame_receiver.py:26-55 | the loop stops right after the first read that raises or that makes the 30th failure in a row, never earlier; it reports once on stopping with the matching message; if the reads run out first it is still running, has reported nothing, and carries the trailing failure count |
| FrameReceiving.DriveKeepsLastFrame | insta_cam_module/utils/frame_receiver.py:31-36 | after the loop, `latest_frame` is the last frame grabbed among the reads made, or what it was before if none was grabbed |
| FrameReceiving.DriveStopsWhere | insta_cam_module/utils/frame_receiver.py:26-55 | from any point in the reads, the loop consumes reads up to the first one that raises or completes 30 failures in a row and stops there, never before; if it is still running it has consumed every read and its count is the trailing run of failures |
| FrameReceiving.DriveReports | insta_cam_module/utils/frame_receiver.py:42-55 | a running loop has reported nothing; a stopped loop has reported exactly once, with "Stream exception: …" when the last read raised and "Stream error" otherwise |
| FrameReceiving.FailuresCount | insta_cam_module/utils/frame_receiver.py:42-45 | a run of failed reads that stays below 30 in a row only advances the failure count, leaving the frame and the reports as they were |
| FrameReceiving.ReportsAtMostOnce | insta_cam_module/utils/frame_receiver.py:45-55 | `on_error` is called at most once per run, and exactly once when the loop stops with a callback given |
| FrameReceiving.StopsOnThirtiethFailure | insta_cam_module/utils/frame_receiver.py:42-49 | thirty failed reads stop the loop after the 30th read exactly, with the latest frame unchanged and one "Stream error" report when a callback is given |
| FrameReceiving.SuccessRestartsTheCount | insta_cam_module/utils/frame_receiver.py:34-45 | 29 failures, a success, then 29 failures leave the loop running, holding that frame, with a count of 29 |
| FrameReceiving.ExceptionStopsAtOnce | insta_cam_module/utils/frame_receiver.py:50-55 | a read that raises stops the loop after that one read, with one "Stream exception: …" report when a callback is given, and the failure count unchanged |
| FrameReceiving.FrameReceiver.constructor | insta_cam_module/utils/frame_receiver.py:8-13 | no frame, not running, no capture |
| FrameReceiving.FrameReceiver.Start | insta_cam_module/utils/frame_receiver.py:15-24 | installs the capture; if it is not opened, reports to `on_error` when given, raises `RuntimeError` and leaves `running` as it was; otherwise sets `running` |
| FrameReceiving.FrameReceiver.UpdateLoop | insta_cam_module/utils/frame_receiver.py:26-55 | running the loop over a sequence of read outcomes leaves the latest frame, the running flag and the error reports the loop specification gives; a stopped receiver reads nothing |
| FrameReceiving.FrameReceiver.GetLatestFrame | insta_cam_module/utils/frame_receiver.py:57-58 | returns the stored frame and changes nothing, so repeated calls agree |
| FrameReceiving.FrameReceiver.Stop | insta_cam_module/utils/frame_receiver.py:60-64 | clears `running` and drops the capture |
| SignalHandling.SignalHandler.constructor | src/signal_processing/signal_handler.py:6-9 | the queue starts empty |
| SignalHandling.SignalHandler.AddSignal | src/signal_processing/signal_handler.py:11-14 | appends the signal at the tail |
| SignalHandling.SignalHandler.ProcessSignals | src/signal_processing/signal_handler.py:16-20 | hands every queued signal to the handler, oldest first, and leaves the queue empty |
| SignalHandling.RegisterFingerprint | src/signal_processing/signal_handler.py:26-41 | always posts the handshake request, with time zone "GMT+8" unless one is given, then returns the decision on the reply |
| SignalHandling.RegisterRequest | src/signal_processing/signal_handler.py:28-36 | the handshake request: `camera._connect` with the hardware time and time zone, JSON content type, timeout 10 |
| SignalHandling.RegisterDecision | src/signal_processing/signal_handler.py:37-41 | decode the body, then return `results.get("Fingerprint")` on state "done" and raise otherwise (cases in `RegisterDecisionCases`) |
| SignalHandling.RegisterRequestShape | src/signal_processing/signal_handler.py:28-35 | the body is `{"name": "camera._connect", "parameters": {"hw_time", "time_zone"}}`; the only header is the JSON content type, with no Fingerprint |
| SignalHandling.RegisterDecisionCases | src/signal_processing/signal_handler.py:37-41 | success exactly for an object reply whose state is "done" and whose results are an object; it returns the Fingerprint, or `None` without one; "Failed to register fingerprint" exactly when the state is missing or not "done"; the status code plays no part |
| Heartbeat.HeartbeatRequest | src/camera/heartbeat.py:29-33 | `{}` to the state URL with the Fingerprint and JSON content-type headers and timeout 5 |
| Heartbeat.SendHeartbeat | src/camera/heartbeat.py:27-35 | posts `{}` to the state URL with timeout 5 and exactly the Fingerprint and JSON content-type headers; returns normally exactly on status 200 and raises "Heartbeat failed" on any other status |
| CameraControl.PreviewRequest | src/camera/camera_controller.py:67-75 | `camera._startPreview` with the preview parameters, the Fingerprint and JSON content-type headers, to the command URL with timeout 10 |
| CameraControl.GatedHeartbeat | src/camera/camera_controller.py:57-61 | a falsy fingerprint raises before anything is posted; otherwise the heartbeat is sent with it |
| CameraControl.GatedPreview | src/camera/camera_controller.py:63-77 | a request is posted exactly when the fingerprint is truthy: `camera._startPreview` with the preview parameters and the fingerprint header, to the command URL; status 200 exactly returns normally, others raise "Failed to start preview" |
| CameraControl.DoneWithoutFingerprintLocksOut | src/camera/camera_controller.py:51-66 | a "done" handshake without a Fingerprint stores `None`, after which both gated commands raise without posting |
| CameraControl.CameraController.constructor | src/camera/camera_controller.py:20-27 | camera index 0 unless one is given; no capture, not running, no fingerprint |
| CameraControl.CameraController.StartCamera | src/camera/camera_controller.py:29-33 | installs a fresh capture on the device and sets running |
| CameraControl.CameraController.StopCamera | src/camera/camera_controller.py:35-40 | releases the capture if present (it stays installed) and clears running |
| CameraControl.CameraController.GetFrame | src/camera/camera_controller.py:42-49 | a frame exactly when a capture is installed, running is set and the read succeeds, and that frame is the one read; an exception from `read()` propagates only in that state; `None` otherwise |
| CameraControl.CameraController.BootCamera | src/camera/camera_controller.py:51-55 | stores whatever the handshake returns, `None` included; keeps the old fingerprint when it raises |
| CameraControl.CameraController.SendHeartbeat | src/camera/camera_controller.py:57-61 | behaves as the gated heartbeat on the stored fingerprint |
| CameraControl.CameraController.StartPreview | src/camera/camera_controller.py:63-77 | behaves as the gated preview on the stored fingerprint |
| Http.RaiseForStatus | src/core/insta_api.py:26 | raises `HTTPError` exactly for statuses 400 to 599 |
| Http.DecodeBody | src/core/insta_api.py:27 | decodes exactly a JSON body, to its value; otherwise raises `JSONDecodeError` |
| Http.CheckedJson | src/core/insta_api.py:25-27 | yields the reply's JSON exactly for a reply that is not 4xx/5xx and whose body decodes; every failure is a request exception |
| InstaApi.MergeParameters | src/core/insta_api.py:20-22 | `update` overwrites or adds the given keys and keeps every other parameter and every other field of the entry; it fails exactly when the entry has no `parameters` object |
| InstaApi.CaughtReply | src/core/insta_api.py:25-30 | the reply's JSON on success, `{"error": str(e)}` on any request exception |
| InstaApi.SendCommandOutcome | src/core/insta_api.py:14-30 | an unknown command raises `ValueError`, posts nothing and changes nothing; without parameters the stored entry is posted unchanged; with parameters the stored entry becomes its merge with them and exactly that is posted, and a failing merge raises its own error with nothing posted or changed; a posted command returns the reply's JSON on success and `{"error": str(e)}` on a request exception; other commands are never changed |
| InstaApi.SendCommandSpec | src/core/insta_api.py:14-30 | one `send_command` as a value: the configuration afterwards and the call made |
| InstaApi.UpdatesPersist | src/core/insta_api.py:20-22 | parameters merged by one call are still posted by a later call for the same command unless overridden |
| InstaApi.InstaAPI.constructor | src/core/insta_api.py:6-12 | stores the URLs and the configuration |
| InstaApi.InstaAPI.SendCommand | src/core/insta_api.py:14-30 | merging in place and posting leaves the configuration and returns the call that the command specification gives |
| InstaApi.InstaAPI.PollState | src/core/insta_api.py:32-35 | posts `{}` to the state URL with timeout 5; returns the JSON of a successful reply and lets every request exception through |
| DataProcessor.RateBounds | src/utils/data_processor.py:17-18 | a reported rate is positive and at most the number of updates counted |
| DataProcessor.FPSCounter.constructor | src/utils/data_processor.py:4-6 | the clock starts at the given reading with nothing counted |
| DataProcessor.FPSCounter.Update | src/utils/data_processor.py:8-22 | counts the call first; under a second since the last report returns `None` and keeps the period; otherwise returns count / elapsed (this call included), in (0, count], and starts a new period; the count always equals the updates since the last report |

## Left out

- Threads and scheduling are not modelled: `QThread`/`threading` start and join, `msleep(33)`, the `while self.running` tick loop (one tick is modelled), Qt signal emission, the locks, and `Heartbeat._monitor`/`start`/`stop`. They exist for concurrency; only single-threaded sequences of steps are modelled.
- UiWorker.FrameProcessWorker.Stop: does not model `self.wait()`, which joins the thread.
- Pixel values of `cv2.resize` are not modelled. Interpolation is replaced by nearest-neighbour sampling (`Frames.Resample`, `Frames.Resize`). Inside the pasted block the pixels are those of this stand-in, not cv2's, so what `UiWorker.LetterboxedCanvas`, `UiWorker.TickEmits` and the `Frames.Resample` row say about the block's contents holds of the stand-in only. The one pixel fact that carries over to the program is `Frames.ResizeKeepsBlack`: an all-zero image resizes to all zeros, which holds under every cv2 interpolation. `UiWorker.EmptySliceIsBlack` rests on it.
- Float rounding is not modelled. Degrees and fields of view are whole numbers, the letterbox scale is exact, and the FPS division is on exact reals. With the exact scale, `UiWorker.ScaledSize` always gives one side equal to the target. In the program, float rounding can leave that side one pixel short: for a 606×240 slice, `int(606 * (320 / 606))` is 319, not 320. The canvas then has an extra one-pixel black column or row.
- UiWorker.LetterboxSucceedsIff: treats every slice without 3 channels as failing the paste. For single-channel input, numpy broadcasting accepts a few shapes (and dtypes are not modelled).
- UiWorker.ProcessSlice: drops the `img is None` test, because the splitter never yields `None`.
- `src/insta360cam/utils/frame_splitter.py`, from which `ui_worker.py` imports `split_frame_by_centers`, is not part of this model. `FrameSplitter` models `insta_cam_module/utils/frame_splitter.py`, and `UiWorker.TickSpec` uses it, on the assumption that the two splitters are the same.
- `cvimg_to_qpixmap`, `UIWorker.start_all` and `_emit_frame_ready` are display and wiring code. `InstaWorker` is not part of this model; its frame slot is represented by a `FrameReceiver`.
- Console logging is not modelled anywhere. This covers the prints in `_update_loop`, `send_command`, `boot_camera`, `handle_signal` and the heartbeat monitor, and `_update_loop`'s `frame_count`/`last_log` bookkeeping, which only feeds a print.
- Configuration file loading (`src/utils/config_loader.py`, the module-level read in `src/camera/camera_controller.py`) is not modelled. Its values are constructor arguments.
- `time.strftime` for `hw_time` and `time.time()` are not modelled. Both are passed in.
- Http.DecodeBody: follows requests 2.27 and later, where a body that is not JSON raises a `RequestException` subclass. Older versions raise a plain `ValueError`, which `send_command` would not catch.
- FrameReceiving.ReportsAtMostOnce: assumes `on_error` returns normally, and so does `FrameReceiving.FrameReceiver.Start`. A callback that raises inside the loop's `try` is caught by the `except` clause and called a second time, with "Stream exception: …". In `start`, its exception replaces the `RuntimeError`. Callbacks are opaque code outside this model.
- Header validation inside `requests` (for example, a non-string Fingerprint value) is not modelled. Exception messages other than the source's own strings are placeholders.
- `handle_signal` only prints. Its calls are recorded in `handled`.
